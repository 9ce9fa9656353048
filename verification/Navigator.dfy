/** The traversal rules of the sequential engine, and the test that decides which engine runs. */
module Navigator {
  import opened Workflow
  import opened Collections
  import opened Digraph
  import opened BackEdges
  import opened GraphAnalysis

  datatype NodeConfig = NodeConfig(id: string, kind: NodeType)

  datatype StartSearch = Found(nodeId: string) | NoStartNode | MultipleStartNodes(ids: seq<string>)

  function StartNodes(nodes: seq<NodeConfig>): (r: seq<NodeConfig>)
    ensures forall n :: n in r <==> n in nodes && n.kind == Start
  {
    if nodes == [] then []
    else
      var rest := StartNodes(nodes[1..]);
      assert nodes == [nodes[0]] + nodes[1..];
      if nodes[0].kind == Start then [nodes[0]] + rest else rest
  }

  function Ids(nodes: seq<NodeConfig>): seq<string> {
    seq(|nodes|, i requires 0 <= i < |nodes| => nodes[i].id)
  }

  function FindStartNode(nodes: seq<NodeConfig>): StartSearch {
    var starts := StartNodes(nodes);
    if |starts| == 0 then NoStartNode
    else if |starts| > 1 then MultipleStartNodes(Ids(starts))
    else Found(starts[0].id)
  }

  lemma {:induction false} StartNodesByPosition(nodes: seq<NodeConfig>)
    ensures |StartNodes(nodes)| == 1 <==> exists i :: 0 <= i < |nodes| && OnlyStart(nodes, i)
    ensures |StartNodes(nodes)| == 0 <==> forall i :: 0 <= i < |nodes| ==> nodes[i].kind != Start
  {
    if nodes != [] {
      var rest := nodes[1..];
      StartNodesByPosition(rest);
      if nodes[0].kind == Start {
        if |StartNodes(rest)| == 0 {
          assert OnlyStart(nodes, 0) by {
            forall j | 0 <= j < |nodes| && j != 0 ensures nodes[j].kind != Start { assert rest[j - 1] == nodes[j]; }
          }
        } else {
          var k :| 0 <= k < |rest| && rest[k].kind == Start;
          assert nodes[k + 1].kind == Start;
          forall i | 0 <= i < |nodes| ensures !OnlyStart(nodes, i) {
          }
        }
      } else {
        forall i | 0 <= i < |rest| ensures OnlyStart(rest, i) <==> OnlyStart(nodes, i + 1) {
          forall j | 0 <= j < |rest| ensures rest[j] == nodes[j + 1] {
          }
        }
        assert forall i :: 0 <= i < |nodes| && OnlyStart(nodes, i) ==> i > 0 && OnlyStart(rest, i - 1);
      }
    }
  }

  ghost predicate OnlyStart(nodes: seq<NodeConfig>, i: nat)
    requires i < |nodes|
  {
    nodes[i].kind == Start && forall j :: 0 <= j < |nodes| && j != i ==> nodes[j].kind != Start
  }

  /** A start node is found exactly when one position holds a START; a second one is an error. */
  lemma FindStartNodeIffUnique(nodes: seq<NodeConfig>, id: string)
    ensures FindStartNode(nodes) == Found(id)
            <==> exists i :: 0 <= i < |nodes| && OnlyStart(nodes, i) && nodes[i].id == id
    ensures FindStartNode(nodes) == NoStartNode <==> forall i :: 0 <= i < |nodes| ==> nodes[i].kind != Start
  {
    StartNodesByPosition(nodes);
    var starts := StartNodes(nodes);
    if |starts| == 1 {
      var i :| 0 <= i < |nodes| && OnlyStart(nodes, i);
      assert starts[0] in starts;
    }
  }

  /** Several START nodes are an error that names them all. */
  lemma ManyStartsAreNamed(nodes: seq<NodeConfig>)
    ensures var search := FindStartNode(nodes);
            && (search.MultipleStartNodes?
                <==> exists i, j :: 0 <= i < j < |nodes| && nodes[i].kind == Start && nodes[j].kind == Start)
            && (search.MultipleStartNodes? ==>
                  forall id :: id in search.ids <==> exists n :: n in nodes && n.kind == Start && n.id == id)
  {
    hide StartNodes;
    StartNodesByPosition(nodes);
    var starts, search := StartNodes(nodes), FindStartNode(nodes);
    if search.MultipleStartNodes? {
      var i :| 0 <= i < |nodes| && nodes[i].kind == Start;
      assert !OnlyStart(nodes, i);
      NamesOfAll(starts, nodes);
    }
  }

  lemma NamesOfAll(starts: seq<NodeConfig>, nodes: seq<NodeConfig>)
    requires forall n :: n in starts <==> n in nodes && n.kind == Start
    ensures forall id :: id in Ids(starts) <==> exists n :: n in nodes && n.kind == Start && n.id == id
  {
    var ids := Ids(starts);
    forall id ensures id in ids <==> exists n :: n in nodes && n.kind == Start && n.id == id {
      if id in ids {
        var k :| 0 <= k < |ids| && ids[k] == id;
        assert starts[k] in starts;
      }
      if n :| n in nodes && n.kind == Start && n.id == id {
        var k :| 0 <= k < |starts| && starts[k] == n;
        assert ids[k] == id;
      }
    }
  }

  /** The edge is traversable and leaves n by the given branch. */
  predicate Follows(nodes: set<string>, e: Edge, n: string, branch: Option<int>) {
    && e.source == n && e.target in nodes && e.target != n
    && (branch.None? || e.sourceHandle == Some(Handle(n, branch.value)))
  }

  ghost predicate IsFirst(edges: seq<Edge>, nodes: set<string>, n: string, branch: Option<int>, i: nat) {
    && i < |edges| && Follows(nodes, edges[i], n, branch)
    && forall j :: 0 <= j < i ==> !Follows(nodes, edges[j], n, branch)
  }

  /** The target of the first edge that may be followed. */
  function FindNextNode(edges: seq<Edge>, nodes: set<string>, n: string, branch: Option<int>): (next: Option<string>)
    ensures next.None? <==> forall i :: 0 <= i < |edges| ==> !Follows(nodes, edges[i], n, branch)
    ensures next.Some? ==> exists i: nat :: IsFirst(edges, nodes, n, branch, i) && edges[i].target == next.value
  {
    if edges == [] then None
    else if Follows(nodes, edges[0], n, branch) then
      assert IsFirst(edges, nodes, n, branch, 0);
      Some(edges[0].target)
    else
      var next := FindNextNode(edges[1..], nodes, n, branch);
      assert forall i :: 1 <= i < |edges| ==> edges[i] == edges[1..][i - 1];
      assert next.Some? ==> exists i: nat :: IsFirst(edges, nodes, n, branch, i) && edges[i].target == next.value by {
        if next.Some? {
          var i: nat :| IsFirst(edges[1..], nodes, n, branch, i) && edges[1..][i].target == next.value;
          assert IsFirst(edges, nodes, n, branch, i + 1);
        }
      }
      next
  }

  lemma FirstIsNext(edges: seq<Edge>, nodes: set<string>, n: string, branch: Option<int>, i: nat)
    requires IsFirst(edges, nodes, n, branch, i)
    ensures FindNextNode(edges, nodes, n, branch) == Some(edges[i].target)
  {
    hide FindNextNode;
    var next := FindNextNode(edges, nodes, n, branch);
    assert next.Some?;
    var k: nat :| IsFirst(edges, nodes, n, branch, k) && edges[k].target == next.value;
    assert k == i;
  }

  /** All successors, each once, in the order of their first edges. `at` holds those edges. */
  method FindNextNodes(edges: seq<Edge>, nodes: set<string>, n: string)
    returns (targets: seq<string>, ghost at: seq<nat>)
    ensures Distinct(targets)
    ensures forall t :: t in targets
                        <==> exists i :: 0 <= i < |edges| && Follows(nodes, edges[i], n, None) && edges[i].target == t
    ensures |at| == |targets| && forall k :: 0 <= k < |at| ==> at[k] < |edges| && edges[at[k]].target == targets[k]
    ensures forall k, i :: 0 <= k < |at| && 0 <= i < at[k] && Follows(nodes, edges[i], n, None)
                           ==> edges[i].target in targets[..k]
    ensures FindNextNode(edges, nodes, n, None) == if targets == [] then None else Some(targets[0])
  {
    targets, at := [], [];
    for j := 0 to |edges|
      invariant Distinct(targets)
      invariant forall t :: t in targets
                            <==> exists i :: 0 <= i < j && Follows(nodes, edges[i], n, None) && edges[i].target == t
      invariant |at| == |targets| && forall k :: 0 <= k < |at| ==> at[k] < j && edges[at[k]].target == targets[k]
      invariant forall k :: 0 <= k < |at| ==> Follows(nodes, edges[at[k]], n, None)
      invariant forall k, i :: 0 <= k < |at| && 0 <= i < at[k] && Follows(nodes, edges[i], n, None)
                               ==> edges[i].target in targets[..k]
    {
      if Follows(nodes, edges[j], n, None) && edges[j].target !in targets {
        ghost var before := targets;
        targets, at := targets + [edges[j].target], at + [j];
        assert forall k :: 0 <= k <= |before| ==> targets[..k] == before[..k];
      }
    }
    if targets != [] {
      assert Follows(nodes, edges[at[0]], n, None);
      assert IsFirst(edges, nodes, n, None, at[0]);
      FirstIsNext(edges, nodes, n, None, at[0]);
    } else {
      forall i | 0 <= i < |edges| ensures !Follows(nodes, edges[i], n, None) {
        assert edges[i].target !in targets;
      }
    }
  }

  /** A plain node with two different successors. */
  ghost predicate Fork(nodes: Nodes, arcs: Arcs, n: string) {
    n in nodes && nodes[n] != Condition && exists a, b :: (n, a) in arcs && (n, b) in arcs && a != b
  }

  ghost predicate ForksOrJoins(nodes: Nodes, arcs: Arcs) {
    (exists n :: Fork(nodes, arcs, n)) || (exists n :: IsJoin(arcs, n))
  }

  /** Whether the graph needs the parallel engine. */
  method HasParallelism(nodes: Nodes, edges: seq<Edge>) returns (parallel: bool)
    ensures parallel <==> ForksOrJoins(nodes, ArcsOf(ValidEdges(nodes, edges)))
  {
    var valid := ValidEdges(nodes, edges);
    ghost var arcs := ArcsOf(valid);
    var outTargets, inSources := Neighbours(valid);
    var todo := outTargets.Keys;
    while todo != {}
      invariant todo <= outTargets.Keys
      invariant forall n :: n in outTargets && n !in todo ==> !Fork(nodes, arcs, n)
      decreases todo
    {
      var n :| n in todo;
      todo := todo - {n};
      TwoElements(outTargets[n]);
      if |outTargets[n]| >= 2 {
        var a :| a in outTargets[n];
        ArcsJoinNodes(nodes, edges, n, a);
        if nodes[n] != Condition {
          assert Fork(nodes, arcs, n);
          return true;
        }
      }
    }
    forall n ensures !Fork(nodes, arcs, n) {
    }
    todo := inSources.Keys;
    while todo != {}
      invariant todo <= inSources.Keys
      invariant forall n :: n in inSources && n !in todo ==> !IsJoin(arcs, n)
      decreases todo
    {
      var n :| n in todo;
      todo := todo - {n};
      TwoElements(inSources[n]);
      if |inSources[n]| >= 2 {
        assert IsJoin(arcs, n);
        return true;
      }
    }
    forall n ensures !IsJoin(arcs, n) {
    }
    return false;
  }

  /** Target sets by source, and source sets by target. */
  method Neighbours(edges: seq<Edge>) returns (targets: map<string, set<string>>, sources: map<string, set<string>>)
    ensures forall u, v :: (u in targets && v in targets[u]) <==> (u, v) in ArcsOf(edges)
    ensures forall u, v :: (v in sources && u in sources[v]) <==> (u, v) in ArcsOf(edges)
  {
    targets, sources := map[], map[];
    for k := 0 to |edges|
      invariant forall u, v :: (u in targets && v in targets[u]) <==> (u, v) in ArcsOf(edges[..k])
      invariant forall u, v :: (v in sources && u in sources[v]) <==> (u, v) in ArcsOf(edges[..k])
    {
      var Edge(_, s, t, _) := edges[k];
      ArcsGrow(edges, k);
      targets := targets[s := (if s in targets then targets[s] else {}) + {t}];
      sources := sources[t := (if t in sources then sources[t] else {}) + {s}];
    }
    assert edges[..|edges|] == edges;
  }
}
