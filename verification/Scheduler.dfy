/**
 The scheduler object: token tables, last outputs and the dead set, updated in place by
 `Complete` and its mutually recursive helpers. Every method is tied to `DagModel`.
 */
module Scheduler {
  import opened Workflow
  import opened Digraph
  import opened DagModel
  import opened BackEdges

  /** Existing target, no self-loop: the edges the engine traverses, in their order. */
  function TraversedEdges(nodes: set<string>, edges: seq<Edge>): (r: seq<Edge>)
    ensures NoSelfEdges(r)
    ensures forall e :: e in r <==> e in edges && e.target in nodes && e.target != e.source
  {
    if edges == [] then []
    else
      var rest := TraversedEdges(nodes, edges[1..]);
      assert edges == [edges[0]] + edges[1..];
      if edges[0].target in nodes && edges[0].target != edges[0].source then [edges[0]] + rest else rest
  }

  predicate Traversable(nodes: set<string>, e: Edge) {
    e.target in nodes && e.target != e.source
  }

  /** `kept` are the edges with an existing target and no self-loop: each once, at its position in `at`, in order. */
  ghost predicate KeptAt(nodes: set<string>, edges: seq<Edge>, kept: seq<Edge>, at: seq<nat>) {
    && |at| == |kept| && Increasing(at)
    && (forall k :: 0 <= k < |at| ==> at[k] < |edges| && kept[k] == edges[at[k]])
    && (forall i: nat :: i in at <==> i < |edges| && Traversable(nodes, edges[i]))
  }

  lemma {:induction false} OneMoreTraversed(nodes: set<string>, edges: seq<Edge>, e: Edge)
    ensures TraversedEdges(nodes, edges + [e])
            == TraversedEdges(nodes, edges) + if Traversable(nodes, e) then [e] else []
  {
    if edges != [] {
      OneMoreTraversed(nodes, edges[1..], e);
      assert (edges + [e])[1..] == edges[1..] + [e];
    } else {
      assert edges + [e] == [e] && [e][1..] == [];
    }
  }

  /** The positions before one more edge. */
  lemma KeptAtEnd(nodes: set<string>, edges: seq<Edge>, e: Edge, kept: seq<Edge>, at: seq<nat>)
    requires KeptAt(nodes, edges, kept, at)
    ensures if Traversable(nodes, e) then KeptAt(nodes, edges + [e], kept + [e], at + [|edges|])
            else KeptAt(nodes, edges + [e], kept, at)
  {
    hide Traversable;
    assert forall i: nat :: i in at + [|edges|] <==> i in at || i == |edges|;
    assert forall k :: 0 <= k < |at| ==> at[k] in at;
  }

  /** The traversed edges keep the positions of the workflow's edge list. */
  lemma {:induction false} TraversedByPosition(nodes: set<string>, edges: seq<Edge>) returns (at: seq<nat>)
    ensures KeptAt(nodes, edges, TraversedEdges(nodes, edges), at)
  {
    hide KeptAt, TraversedEdges;
    if edges == [] {
      at := [];
      NothingKept(nodes);
    } else {
      var init, e := edges[..|edges| - 1], edges[|edges| - 1];
      at := TraversedByPosition(nodes, init);
      OneMoreTraversed(nodes, init, e);
      KeptAtEnd(nodes, init, e, TraversedEdges(nodes, init), at);
      assert edges == init + [e];
      if Traversable(nodes, e) {
        at := at + [|init|];
      } else {
        assert TraversedEdges(nodes, init) + [] == TraversedEdges(nodes, init);
      }
    }
  }

  lemma NothingKept(nodes: set<string>)
    ensures KeptAt(nodes, [], TraversedEdges(nodes, []), [])
  {
  }

  class DagScheduler {
    const graph: Graph
    var tokens: map<string, map<nat, Status>>
    var nodeOutputs: map<string, Payload>
    var dead: set<string>
    ghost const finish: map<string, nat>

    ghost predicate Valid() {
      NoSelfEdges(graph.edges) && SearchResult(graph.start, graph.edges, graph.back, finish)
    }

    ghost function Abs(): State
      reads this
    {
      State(tokens, nodeOutputs, dead)
    }

    constructor (nodes: set<string>, edges: seq<Edge>, startNodeId: string)
      ensures Valid()
      ensures graph.start == startNodeId && graph.edges == TraversedEdges(nodes, edges)
      ensures exists at :: KeptAt(nodes, edges, graph.edges, at)
      ensures Abs() == EMPTY_STATE
    {
      var valid := TraversedEdges(nodes, edges);
      ghost var at := TraversedByPosition(nodes, edges);
      var back, dates := ComputeBackEdges(startNodeId, valid);
      graph := Graph(startNodeId, valid, back);
      finish := dates;
      tokens, nodeOutputs, dead := map[], map[], {};
    }

    /** Seeds the run: START is ready with no predecessor input. */
    method Start() returns (ready: seq<ReadyNode>)
      ensures ready == [ReadyNode(graph.start, map[])]
    {
      ready := [ReadyNode(graph.start, map[])];
    }

    method Complete(nodeId: string, outputData: Payload, branchIndex: Option<int>, isTerminal: bool)
      returns (result: CompleteResult)
      modifies this
      ensures if isTerminal || graph.Out(nodeId) == [] then
                result == CompleteResult([], 0)
                    && Abs() == old(Abs()).(outputs := old(nodeOutputs)[nodeId := outputData])
              else (Abs(), result) == DagModel.Complete(graph, old(Abs()), nodeId, outputData, branchIndex)
    {
      hide Exec;
      nodeOutputs := nodeOutputs[nodeId := outputData];
      if isTerminal || graph.Out(nodeId) == [] {
        return CompleteResult([], 0);
      }
      ghost var recorded := Abs();
      assert recorded == old(Abs()).(outputs := old(nodeOutputs)[nodeId := outputData]);
      var selected, siblings := graph.Selected(nodeId, branchIndex), graph.Siblings(nodeId, branchIndex);
      var ready := Deliveries(selected, Live, []);
      ghost var mid, live := Abs(), Exec(graph, recorded, Items(selected, Live)).1;
      ExecNothing(graph, mid);
      assert [] + live == live && live + [] == live;
      if branchIndex.Some? {
        ready := Deliveries(siblings, Dead, ready);
      } else {
        assert siblings == [];
      }
      ExecAppend(graph, recorded, Items(selected, Live), Items(siblings, Dead));
      result := CompleteResult(ready, |selected|);
    }

    /** Delivers a status on every edge of a list; a LIVE back-edge re-activates its target. */
    method Deliveries(edges: seq<nat>, status: Status, ready: seq<ReadyNode>) returns (ready': seq<ReadyNode>)
      requires forall i :: 0 <= i < |edges| ==> edges[i] < |graph.edges|
      modifies this
      ensures Abs() == Exec(graph, old(Abs()), Items(edges, status)).0
      ensures ready' == ready + Exec(graph, old(Abs()), Items(edges, status)).1
      decreases graph.Targets() - dead, 3
    {
      hide Exec;
      ready' := ready;
      ExecNothing(graph, Abs());
      assert Items(edges[..0], status) == [];
      for i := 0 to |edges|
        invariant old(dead) <= dead
        invariant Exec(graph, old(Abs()), Items(edges[..i], status)).0 == Abs()
        invariant ready' == ready + Exec(graph, old(Abs()), Items(edges[..i], status)).1
      {
        DeliverOneMore(graph, old(Abs()), edges, i, status);
        ReactivateStep(graph, Abs(), Item(edges[i], status));
        if edges[i] in graph.back {
          var e := graph.edges[edges[i]];
          ready' := ready' + [ReadyNode(e.target, if e.source in nodeOutputs then nodeOutputs[e.source] else map[])];
        } else {
          ready' := Deliver(edges[i], status, ready');
        }
      }
      assert edges[..|edges|] == edges;
    }

    /** Puts a token on a forward edge and fires its target if now saturated. */
    method Deliver(edge: nat, status: Status, ready: seq<ReadyNode>) returns (ready': seq<ReadyNode>)
      requires edge < |graph.edges| && edge !in graph.back
      modifies this
      ensures Abs() == Exec(graph, old(Abs()), [Item(edge, status)]).0
      ensures ready' == ready + Exec(graph, old(Abs()), [Item(edge, status)]).1
      decreases graph.Targets() - dead, 2
    {
      hide Exec, Reaction;
      var target := graph.edges[edge].target;
      ExecForward(graph, Abs(), Item(edge, status));
      tokens := tokens[target := (if target in tokens then tokens[target] else map[])[edge := status]];
      assert Abs() == PutToken(graph, old(Abs()), Item(edge, status));
      ready' := MaybeFire(target, ready);
    }

    method MaybeFire(nodeId: string, ready: seq<ReadyNode>) returns (ready': seq<ReadyNode>)
      requires nodeId in graph.Targets()
      modifies this
      ensures Abs() == Reaction(graph, old(Abs()), nodeId).0
      ensures ready' == ready + Reaction(graph, old(Abs()), nodeId).1
      decreases graph.Targets() - dead, 1
    {
      hide Exec, Reaction;
      ghost var before := Abs();
      var forwardIn := graph.ForwardIn(nodeId);
      if forwardIn == [] {
        FireWaits(graph, before, nodeId);
        return ready;
      }
      var waiting := if nodeId in tokens then tokens[nodeId] else map[];
      if |waiting| < |forwardIn| {
        FireWaits(graph, before, nodeId);
        return ready;
      }
      tokens := tokens[nodeId := map[]];
      var liveSources := LiveSources(graph, waiting, nodeId);
      if liveSources != [] {
        FireRuns(graph, before, nodeId);
        var merged := MergeOutputs(liveSources);
        ready' := ready + [ReadyNode(nodeId, merged)];
      } else {
        FireDies(graph, before, nodeId);
        ready' := PropagateDead(nodeId, ready);
      }
    }

    /** The input of a join: the outputs of its LIVE predecessors, the last edge winning. */
    method MergeOutputs(liveSources: seq<nat>) returns (merged: Payload)
      requires InRange(graph, liveSources)
      ensures merged == Merge(graph, Abs(), liveSources)
    {
      merged := map[];
      for i := 0 to |liveSources|
        invariant merged == Merge(graph, Abs(), liveSources[..i])
      {
        var source := graph.edges[liveSources[i]].source;
        merged := merged + if source in nodeOutputs then nodeOutputs[source] else map[];
        assert liveSources[..i + 1][..i] == liveSources[..i];
      }
      assert liveSources[..|liveSources|] == liveSources;
    }

    /** Deadness flows down forward edges; a node already dead stays silent. */
    method PropagateDead(nodeId: string, ready: seq<ReadyNode>) returns (ready': seq<ReadyNode>)
      requires nodeId in graph.Targets()
      modifies this
      ensures if nodeId in old(dead) then Abs() == old(Abs()) && ready' == ready
              else var s := old(Abs()).(dead := old(dead) + {nodeId});
                   var owed := Items(graph.ForwardOut(nodeId), Dead);
                   Abs() == Exec(graph, s, owed).0 && ready' == ready + Exec(graph, s, owed).1
      decreases graph.Targets() - dead, 0
    {
      hide Exec;
      if nodeId in dead {
        return ready;
      }
      assert nodeId in graph.Targets() - dead;
      dead := dead + {nodeId};
      assert nodeId !in graph.Targets() - dead;
      ready' := Deliveries(graph.ForwardOut(nodeId), Dead, ready);
    }
  }
}
