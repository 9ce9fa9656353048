/**
 Static graph checks: which END nodes an AND-split can race, by worklist reachability over the
 edges the engine traverses.
 */
module GraphAnalysis {
  import opened Workflow
  import opened Collections
  import opened Digraph
  import opened BackEdges

  /** Existing source and target, no self-loop. */
  function ValidEdges(nodes: Nodes, edges: seq<Edge>): (r: seq<Edge>)
    ensures forall e :: e in r <==> e in edges && e.source in nodes && e.target in nodes && e.target != e.source
  {
    if edges == [] then []
    else
      var rest := ValidEdges(nodes, edges[1..]);
      assert edges == [edges[0]] + edges[1..];
      var e := edges[0];
      if e.source in nodes && e.target in nodes && e.target != e.source then [e] + rest else rest
  }

  predicate Valid(nodes: Nodes, e: Edge) {
    e.source in nodes && e.target in nodes && e.target != e.source
  }

  lemma {:induction false} OneMoreValid(nodes: Nodes, edges: seq<Edge>, e: Edge)
    ensures ValidEdges(nodes, edges + [e]) == ValidEdges(nodes, edges) + if Valid(nodes, e) then [e] else []
  {
    if edges != [] {
      OneMoreValid(nodes, edges[1..], e);
      assert (edges + [e])[1..] == edges[1..] + [e];
    } else {
      assert edges + [e] == [e] && [e][1..] == [];
    }
  }

  /** `kept` are the edges between different existing nodes: each once, at its position in `at`, in order. */
  ghost predicate ValidAt(nodes: Nodes, edges: seq<Edge>, kept: seq<Edge>, at: seq<nat>) {
    && |at| == |kept| && (forall j, k :: 0 <= j < k < |at| ==> at[j] < at[k])
    && (forall k :: 0 <= k < |at| ==> at[k] < |edges| && kept[k] == edges[at[k]])
    && (forall i: nat :: i in at <==> i < |edges| && Valid(nodes, edges[i]))
  }

  lemma ValidAtEnd(nodes: Nodes, edges: seq<Edge>, e: Edge, kept: seq<Edge>, at: seq<nat>)
    requires ValidAt(nodes, edges, kept, at)
    ensures if Valid(nodes, e) then ValidAt(nodes, edges + [e], kept + [e], at + [|edges|])
            else ValidAt(nodes, edges + [e], kept, at)
  {
    hide Valid;
    assert forall i: nat :: i in at + [|edges|] <==> i in at || i == |edges|;
    assert forall k :: 0 <= k < |at| ==> at[k] in at;
  }

  /** The valid edges keep the positions of the workflow's edge list. */
  lemma {:induction false} ValidByPosition(nodes: Nodes, edges: seq<Edge>) returns (at: seq<nat>)
    ensures ValidAt(nodes, edges, ValidEdges(nodes, edges), at)
  {
    hide ValidAt, ValidEdges;
    if edges == [] {
      at := [];
      NoneValid(nodes);
    } else {
      var init, e := edges[..|edges| - 1], edges[|edges| - 1];
      at := ValidByPosition(nodes, init);
      OneMoreValid(nodes, init, e);
      ValidAtEnd(nodes, init, e, ValidEdges(nodes, init), at);
      assert edges == init + [e];
      if Valid(nodes, e) {
        at := at + [|init|];
      } else {
        assert ValidEdges(nodes, init) + [] == ValidEdges(nodes, init);
      }
    }
  }

  lemma NoneValid(nodes: Nodes)
    ensures ValidAt(nodes, [], ValidEdges(nodes, []), [])
  {
  }

  /** Successor lists. */
  type Adjacency = map<string, seq<string>>

  function Successors(out: Adjacency, n: string): seq<string> {
    if n in out then out[n] else []
  }

  ghost predicate Represents(out: Adjacency, arcs: Arcs) {
    forall u, v :: v in Successors(out, u) <==> (u, v) in arcs
  }

  ghost function NodesOf(arcs: Arcs): set<string> {
    (set a | a in arcs :: a.0) + set a | a in arcs :: a.1
  }

  lemma ArcsGrow(edges: seq<Edge>, k: nat)
    requires k < |edges|
    ensures ArcsOf(edges[..k + 1]) == ArcsOf(edges[..k]) + {(edges[k].source, edges[k].target)}
  {
    var more := edges[..k + 1];
    forall a | a in ArcsOf(edges[..k]) + {(edges[k].source, edges[k].target)}
      ensures a in ArcsOf(more)
    {
      if a in ArcsOf(edges[..k]) {
        var e :| 0 <= e < k && (edges[..k][e].source, edges[..k][e].target) == a;
        assert more[e] == edges[e];
      } else {
        assert more[k] == edges[k];
      }
    }
    forall a | a in ArcsOf(more)
      ensures a in ArcsOf(edges[..k]) + {(edges[k].source, edges[k].target)}
    {
      var e :| 0 <= e < |more| && (more[e].source, more[e].target) == a;
      if e < k {
        assert edges[..k][e] == more[e];
      }
    }
  }

  method OutAdjacency(edges: seq<Edge>) returns (out: Adjacency)
    ensures Represents(out, ArcsOf(edges))
  {
    out := map[];
    for k := 0 to |edges|
      invariant Represents(out, ArcsOf(edges[..k]))
    {
      var e := edges[k];
      ArcsGrow(edges, k);
      out := out[e.source := Successors(out, e.source) + [e.target]];
    }
    assert edges[..|edges|] == edges;
  }

  lemma NoArcs()
    ensures ArcsOf([]) == {}
  {
  }

  /** Distinct targets per source, in first-seen order. */
  method Branches(edges: seq<Edge>) returns (branches: Adjacency)
    ensures Represents(branches, ArcsOf(edges))
    ensures forall u :: u in branches ==> Distinct(branches[u]) && branches[u] != []
  {
    hide ArcsOf;
    branches := map[];
    assert ArcsOf(edges[..0]) == {} by { NoArcs(); }
    for k := 0 to |edges|
      invariant Represents(branches, ArcsOf(edges[..k]))
      invariant forall u :: u in branches ==> Distinct(branches[u]) && branches[u] != []
    {
      var e := edges[k];
      ArcsGrow(edges, k);
      if e.target !in Successors(branches, e.source) {
        branches := branches[e.source := Successors(branches, e.source) + [e.target]];
      }
    }
    assert edges[..|edges|] == edges;
  }

  lemma ArcEndsInNodes(arcs: Arcs, u: string, v: string)
    requires (u, v) in arcs
    ensures u in NodesOf(arcs) && v in NodesOf(arcs)
  {
    assert (u, v).0 == u && (u, v).1 == v;
  }

  /** Forward-reachable END nodes. */
  method ReachableEnds(start: string, out: Adjacency, endIds: set<string>, ghost arcs: Arcs)
    returns (found: set<string>)
    requires Represents(out, arcs)
    ensures forall n :: n in found <==> n in endIds && Reaches(arcs, start, n)
  {
    hide Reaches, NodesOf;
    var seen: set<string> := {};
    found := {};
    var stack := [start];
    ghost var universe := NodesOf(arcs) + {start};
    ReachesSelf(arcs, start);
    while stack != []
      invariant found == seen * endIds && seen <= universe
      invariant forall i :: 0 <= i < |stack| ==> stack[i] in universe && Reaches(arcs, start, stack[i])
      invariant forall n :: n in seen ==> Reaches(arcs, start, n)
      invariant forall u, v :: u in seen && (u, v) in arcs ==> v in seen || v in stack
      invariant start in seen || start in stack
      decreases universe - seen, |stack|
    {
      var node := stack[|stack| - 1];
      var rest := stack[..|stack| - 1];
      assert stack == rest + [node];
      stack := rest;
      if node !in seen {
        ghost var before := seen;
        assert node in universe - seen;
        seen := seen + {node};
        if node in endIds {
          found := found + {node};
        }
        var next := Successors(out, node);
        forall i | 0 <= i < |next|
          ensures next[i] in universe && Reaches(arcs, start, next[i])
        {
          assert next[i] in next;
          assert (node, next[i]) in arcs;
          ArcEndsInNodes(arcs, node, next[i]);
          ReachesThenArc(arcs, start, node, next[i]);
        }
        stack := stack + next;
      }
    }
    assert ClosedUnder(arcs, seen);
    forall n | Reaches(arcs, start, n)
      ensures n in seen
    {
      ReachesStaysIn(arcs, seen, start, n);
    }
  }

  ghost predicate IsEnd(nodes: Nodes, n: string) {
    n in nodes && nodes[n] == End
  }

  ghost predicate EndFrom(nodes: Nodes, arcs: Arcs, n: string, end: string) {
    IsEnd(nodes, end) && Reaches(arcs, n, end)
  }

  ghost predicate LeadsToEnd(nodes: Nodes, arcs: Arcs, n: string) {
    exists end :: EndFrom(nodes, arcs, n, end)
  }

  /** A node with two or more distinct predecessors. */
  ghost predicate IsJoin(arcs: Arcs, n: string) {
    exists a, b :: a != b && (a, n) in arcs && (b, n) in arcs
  }

  /** An END on some branch of n. */
  ghost predicate EndBelow(nodes: Nodes, arcs: Arcs, n: string, end: string) {
    exists t :: (n, t) in arcs && EndFrom(nodes, arcs, t, end)
  }

  /** An AND-split two of whose branches lead to ENDs, with two different ENDs below it. */
  ghost predicate RacingSplit(nodes: Nodes, arcs: Arcs, n: string) {
    && n in nodes && nodes[n] != Condition
    && (exists a, b :: a != b && (n, a) in arcs && (n, b) in arcs
                       && LeadsToEnd(nodes, arcs, a) && LeadsToEnd(nodes, arcs, b))
    && (exists x, y :: x != y && EndBelow(nodes, arcs, n, x) && EndBelow(nodes, arcs, n, y))
  }

  /** What the check is meant to report. */
  ghost predicate ParallelEnd(nodes: Nodes, arcs: Arcs, end: string) {
    exists n :: RacingSplit(nodes, arcs, n) && EndBelow(nodes, arcs, n, end)
  }

  /** END nodes that can fire in parallel because an AND-split reaches them. */
  method DetectParallelEnds(nodes: Nodes, edges: seq<Edge>) returns (flagged: set<string>)
    ensures forall n :: n in flagged <==> ParallelEnd(nodes, ArcsOf(ValidEdges(nodes, edges)), n)
  {
    hide Reaches, ArcsOf;
    var valid := ValidEdges(nodes, edges);
    ghost var arcs := ArcsOf(valid);
    var endIds := set n | n in nodes && nodes[n] == End;
    flagged := {};
    if endIds == {} {
      return;
    }
    var out := OutAdjacency(valid);
    var branches := Branches(valid);
    var todo := branches.Keys;
    while todo != {}
      invariant todo <= branches.Keys
      invariant forall n :: n in flagged <==>
                              exists v :: v in branches.Keys - todo && RacingSplit(nodes, arcs, v)
                                          && EndBelow(nodes, arcs, v, n)
      decreases todo
    {
      var source :| source in todo;
      todo := todo - {source};
      assert branches[source][0] in Successors(branches, source);
      ArcsJoinNodes(nodes, edges, source, branches[source][0]);
      var reported := EndsOfSplit(nodes, source, branches[source], out, endIds, arcs);
      flagged := flagged + reported;
    }
    assert forall v, n :: EndBelow(nodes, arcs, v, n) ==> v in branches;
  }

  lemma ArcsJoinNodes(nodes: Nodes, edges: seq<Edge>, u: string, v: string)
    requires (u, v) in ArcsOf(ValidEdges(nodes, edges))
    ensures u in nodes && v in nodes && u != v
  {
    var valid := ValidEdges(nodes, edges);
    var e :| 0 <= e < |valid| && (valid[e].source, valid[e].target) == (u, v);
    assert valid[e] in valid;
  }

  /** The ENDs one source contributes: those of all its branches if it is a racing AND-split, none otherwise. */
  method EndsOfSplit(nodes: Nodes, source: string, targets: seq<string>, out: Adjacency, endIds: set<string>,
                     ghost arcs: Arcs)
    returns (reported: set<string>)
    requires Represents(out, arcs) && Distinct(targets) && forall t :: t in targets <==> (source, t) in arcs
    requires forall n :: n in endIds <==> IsEnd(nodes, n)
    requires source in nodes
    ensures forall n :: n in reported <==> RacingSplit(nodes, arcs, source) && EndBelow(nodes, arcs, source, n)
  {
    hide Reaches, Represents, Gathered;
    if nodes[source] == Condition || |targets| < 2 {
      return {};
    }
    var contributing, union := 0, {};
    GatherNone(nodes, arcs);
    ghost var from: set<string> := {};
    for i := 0 to |targets|
      invariant contributing == |from| && forall t :: t in from ==> t in targets[..i]
      invariant forall k :: 0 <= k < i ==> (targets[k] in from <==> LeadsToEnd(nodes, arcs, targets[k]))
      invariant Gathered(nodes, arcs, targets[..i], union)
    {
      var ends := ReachableEnds(targets[i], out, endIds, arcs);
      assert forall n :: n in ends <==> EndFrom(nodes, arcs, targets[i], n);
      GatherMore(nodes, arcs, targets, i, union, ends);
      if ends != {} {
        var end :| end in ends;
        contributing := contributing + 1;
        from := from + {targets[i]};
      }
      union := union + ends;
    }
    TwoElements(from);
    TwoElements(union);
    assert targets[..|targets|] == targets;
    UnionIsBelow(nodes, arcs, source, targets, union);
    SplitFromCounts(nodes, arcs, source, targets, from, union);
    return if contributing >= 2 && |union| >= 2 then union else {};
  }

  /** The ENDs below any of the targets. */
  ghost predicate Gathered(nodes: Nodes, arcs: Arcs, targets: seq<string>, union: set<string>) {
    forall n :: n in union <==> exists k :: 0 <= k < |targets| && EndFrom(nodes, arcs, targets[k], n)
  }

  lemma GatherNone(nodes: Nodes, arcs: Arcs)
    ensures Gathered(nodes, arcs, [], {})
  {
  }

  lemma GatherMore(nodes: Nodes, arcs: Arcs, targets: seq<string>, i: nat, union: set<string>, ends: set<string>)
    requires i < |targets| && Gathered(nodes, arcs, targets[..i], union)
    requires forall n :: n in ends <==> EndFrom(nodes, arcs, targets[i], n)
    ensures Gathered(nodes, arcs, targets[..i + 1], union + ends)
  {
    hide EndFrom;
    var few, more := targets[..i], targets[..i + 1];
    assert more == few + [targets[i]];
    forall n ensures n in union + ends <==> exists k :: 0 <= k < |more| && EndFrom(nodes, arcs, more[k], n) {
      if n in union {
        var k :| 0 <= k < |few| && EndFrom(nodes, arcs, few[k], n);
        assert more[k] == few[k];
      }
      if n in ends {
        assert more[i] == targets[i];
      }
      if k :| 0 <= k < |more| && EndFrom(nodes, arcs, more[k], n) {
        assert k < i ==> few[k] == more[k];
      }
    }
  }

  lemma UnionIsBelow(nodes: Nodes, arcs: Arcs, source: string, targets: seq<string>, union: set<string>)
    requires forall t :: t in targets <==> (source, t) in arcs
    requires Gathered(nodes, arcs, targets, union)
    ensures forall n :: n in union <==> EndBelow(nodes, arcs, source, n)
  {
    hide Reaches;
  }

  lemma SplitFromCounts(nodes: Nodes, arcs: Arcs, source: string, targets: seq<string>, from: set<string>,
                        union: set<string>)
    requires source in nodes && nodes[source] != Condition
    requires forall t :: t in targets <==> (source, t) in arcs
    requires forall t :: t in from ==> t in targets
    requires forall k :: 0 <= k < |targets| ==> (targets[k] in from <==> LeadsToEnd(nodes, arcs, targets[k]))
    requires forall n :: n in union <==> EndBelow(nodes, arcs, source, n)
    ensures RacingSplit(nodes, arcs, source) <==>
            (exists a, b :: a in from && b in from && a != b) && (exists x, y :: x in union && y in union && x != y)
  {
    hide Reaches, LeadsToEnd, EndBelow;
    forall t ensures t in from <==> (source, t) in arcs && LeadsToEnd(nodes, arcs, t) {
      if t in targets {
        var k :| 0 <= k < |targets| && targets[k] == t;
      }
    }
  }
}
