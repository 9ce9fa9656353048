/** The second static check: joins that sit on a cycle, and what an empty report guarantees. */
module JoinInLoop {
  import opened Workflow
  import opened Collections
  import opened Digraph
  import opened BackEdges
  import opened GraphAnalysis
  import opened Tarjan

  type Sources = map<string, set<string>>

  function SourcesOf(incoming: Sources, n: string): set<string> {
    if n in incoming then incoming[n] else {}
  }

  method IncomingSources(edges: seq<Edge>) returns (incoming: Sources)
    ensures forall u, v :: u in SourcesOf(incoming, v) <==> (u, v) in ArcsOf(edges)
  {
    incoming := map[];
    for k := 0 to |edges|
      invariant forall u, v :: u in SourcesOf(incoming, v) <==> (u, v) in ArcsOf(edges[..k])
    {
      var e := edges[k];
      ArcsGrow(edges, k);
      incoming := incoming[e.target := SourcesOf(incoming, e.target) + {e.source}];
    }
    assert edges[..|edges|] == edges;
  }

  /** Join nodes that sit on a cycle. */
  method DetectJoinInLoop(nodes: Nodes, edges: seq<Edge>) returns (joins: set<string>)
    ensures var arcs := ArcsOf(GraphAnalysis.ValidEdges(nodes, edges));
            forall n :: n in joins <==> IsJoin(arcs, n) && OnCycle(arcs, n)
  {
    hide OnCycle, ArcsOf;
    var valid := GraphAnalysis.ValidEdges(nodes, edges);
    ghost var arcs := ArcsOf(valid);
    var incoming := IncomingSources(valid);
    var joinNodes := set n | n in incoming && |incoming[n]| >= 2;
    forall n ensures n in joinNodes <==> IsJoin(arcs, n) {
      TwoElements(SourcesOf(incoming, n));
    }
    if joinNodes == {} {
      return {};
    }
    forall u, v | (u, v) in arcs
      ensures u in nodes && v in nodes && u != v
    {
      ArcsJoinNodes(nodes, edges, u, v);
    }
    var out := OutAdjacency(valid);
    var onCycle := NodesOnCycle(out, nodes.Keys, arcs);
    joins := joinNodes * onCycle;
  }

  /** A closed walk. */
  ghost predicate IsCycle(arcs: Arcs, p: seq<string>) {
    |p| >= 2 && IsWalk(arcs, p) && p[0] == p[|p| - 1]
  }

  lemma WalkSplit(arcs: Arcs, p: seq<string>, i: nat, j: nat)
    requires IsWalk(arcs, p) && i <= j < |p|
    ensures Reaches(arcs, p[i], p[j])
  {
    var q := p[i..j + 1];
    forall k | 0 <= k < |q| - 1
      ensures (q[k], q[k + 1]) in arcs
    {
      assert q[k] == p[i + k] && q[k + 1] == p[i + k + 1];
    }
    assert WalkFromTo(arcs, p[i], p[j], q);
  }

  /** Every node of a closed walk has its predecessor on it, and lies on a cycle. */
  lemma CyclePredecessor(arcs: Arcs, p: seq<string>, i: nat) returns (k: nat)
    requires IsCycle(arcs, p) && i < |p|
    ensures k < |p| && (p[k], p[i]) in arcs && OnCycle(arcs, p[i])
  {
    k := if i > 0 then i - 1 else |p| - 2;
    assert (p[k], p[k + 1]) in arcs && p[k + 1] == p[i];
    var next := if i < |p| - 1 then i + 1 else 1;
    assert (p[next - 1], p[next]) in arcs && p[next - 1] == p[i];
    WalkSplit(arcs, p, next, |p| - 1);
    WalkSplit(arcs, p, 0, i);
    ReachesTrans(arcs, p[next], p[0], p[i]);
  }

  /** Where a walk first meets the nodes of a closed walk. */
  lemma FirstMeeting(p: seq<string>, q: seq<string>) returns (k: nat)
    requires |q| > 0 && q[0] !in p && q[|q| - 1] in p
    ensures 0 < k < |q| && q[k] in p && q[k - 1] !in p
  {
    k := 1;
    while q[k] !in p
      invariant 0 < k < |q| && q[k - 1] !in p
      decreases |q| - k
    {
      k := k + 1;
    }
  }

  /** The node by which START's walk enters a cycle it is not on is a join on that cycle. */
  lemma EntryIsJoin(arcs: Arcs, start: string, p: seq<string>) returns (n: string)
    requires IsCycle(arcs, p) && Reaches(arcs, start, p[0]) && start !in p
    ensures n in p && IsJoin(arcs, n) && OnCycle(arcs, n)
  {
    var q :| WalkFromTo(arcs, start, p[0], q);
    var k := FirstMeeting(p, q);
    n := q[k];
    var i :| 0 <= i < |p| && p[i] == n;
    var j := CyclePredecessor(arcs, p, i);
    assert p[j] in p;
    assert (q[k - 1], q[k]) in arcs;
  }

  /** With nothing reported, every cycle reachable from START passes through START. */
  lemma CyclesPassThroughStart(arcs: Arcs, start: string, p: seq<string>)
    requires forall n :: !(IsJoin(arcs, n) && OnCycle(arcs, n))
    requires IsCycle(arcs, p) && Reaches(arcs, start, p[0])
    ensures start in p
  {
    hide IsJoin, OnCycle, Reaches;
    if start !in p {
      var n := EntryIsJoin(arcs, start, p);
      assert false;
    }
  }
}
