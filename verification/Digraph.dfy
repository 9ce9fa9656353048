/** Walks, reachability and cycles of a finite directed graph given by its set of arcs. */
module Digraph {

  type Arcs = set<(string, string)>

  ghost predicate IsWalk(arcs: Arcs, p: seq<string>) {
    |p| >= 1 && forall i :: 0 <= i < |p| - 1 ==> (p[i], p[i + 1]) in arcs
  }

  ghost predicate WalkFromTo(arcs: Arcs, u: string, v: string, p: seq<string>) {
    IsWalk(arcs, p) && p[0] == u && p[|p| - 1] == v
  }

  ghost predicate Reaches(arcs: Arcs, u: string, v: string) {
    exists p :: WalkFromTo(arcs, u, v, p)
  }

  /** v lies on a directed cycle. */
  ghost predicate OnCycle(arcs: Arcs, v: string) {
    exists w :: (v, w) in arcs && Reaches(arcs, w, v)
  }

  ghost predicate Acyclic(arcs: Arcs) {
    forall v :: !OnCycle(arcs, v)
  }

  ghost predicate NoSelfLoops(arcs: Arcs) {
    forall v :: (v, v) !in arcs
  }

  ghost predicate ClosedUnder(arcs: Arcs, nodes: set<string>) {
    forall u, v :: (u, v) in arcs && u in nodes ==> v in nodes
  }

  lemma ReachesSelf(arcs: Arcs, u: string)
    ensures Reaches(arcs, u, u)
  {
    assert WalkFromTo(arcs, u, u, [u]);
  }

  lemma ReachesArc(arcs: Arcs, u: string, v: string)
    requires (u, v) in arcs
    ensures Reaches(arcs, u, v)
  {
    assert WalkFromTo(arcs, u, v, [u, v]);
  }

  lemma ReachesTrans(arcs: Arcs, u: string, v: string, w: string)
    requires Reaches(arcs, u, v) && Reaches(arcs, v, w)
    ensures Reaches(arcs, u, w)
  {
    var p :| WalkFromTo(arcs, u, v, p);
    var q :| WalkFromTo(arcs, v, w, q);
    var r := p + q[1..];
    forall i | 0 <= i < |r| - 1
      ensures (r[i], r[i + 1]) in arcs
    {
      if i >= |p| {
        assert r[i] == q[i - |p| + 1] && r[i + 1] == q[i - |p| + 2];
      } else if i == |p| - 1 {
        assert r[i] == q[0] && r[i + 1] == q[1];
      }
    }
    assert WalkFromTo(arcs, u, w, r);
  }

  lemma ReachesThenArc(arcs: Arcs, u: string, v: string, w: string)
    requires Reaches(arcs, u, v) && (v, w) in arcs
    ensures Reaches(arcs, u, w)
  {
    ReachesArc(arcs, v, w);
    ReachesTrans(arcs, u, v, w);
  }

  lemma ArcThenReaches(arcs: Arcs, u: string, v: string, w: string)
    requires (u, v) in arcs && Reaches(arcs, v, w)
    ensures Reaches(arcs, u, w)
  {
    ReachesArc(arcs, u, v);
    ReachesTrans(arcs, u, v, w);
  }

  /** A walk never leaves a set closed under the arcs. */
  lemma {:induction false} WalkStaysIn(arcs: Arcs, nodes: set<string>, p: seq<string>)
    requires ClosedUnder(arcs, nodes) && IsWalk(arcs, p) && p[0] in nodes
    ensures p[|p| - 1] in nodes
    decreases |p|
  {
    if |p| > 1 {
      assert (p[0], p[1]) in arcs;
      WalkStaysIn(arcs, nodes, p[1..]);
    }
  }

  lemma ReachesStaysIn(arcs: Arcs, nodes: set<string>, u: string, v: string)
    requires ClosedUnder(arcs, nodes) && Reaches(arcs, u, v) && u in nodes
    ensures v in nodes
  {
    var p :| WalkFromTo(arcs, u, v, p);
    WalkStaysIn(arcs, nodes, p);
  }

  /** Two distinct nodes that reach each other both lie on a cycle. */
  lemma MutualReachIsCycle(arcs: Arcs, u: string, v: string)
    requires u != v && Reaches(arcs, u, v) && Reaches(arcs, v, u)
    ensures OnCycle(arcs, u)
  {
    var p :| WalkFromTo(arcs, u, v, p);
    assert (p[0], p[1]) in arcs;
    assert WalkFromTo(arcs, p[1], v, p[1..]);
    ReachesTrans(arcs, p[1], v, u);
  }

  /** A cycle in a graph without self-loops visits a second node. */
  lemma CycleHasPartner(arcs: Arcs, u: string) returns (v: string)
    requires NoSelfLoops(arcs) && OnCycle(arcs, u)
    ensures v != u && Reaches(arcs, u, v) && Reaches(arcs, v, u)
  {
    v :| (u, v) in arcs && Reaches(arcs, v, u);
    ReachesArc(arcs, u, v);
  }

  /** Every arc climbs the rank. */
  ghost predicate Ranked(arcs: Arcs, rank: map<string, nat>) {
    forall u, v :: (u, v) in arcs ==> u in rank && v in rank && rank[u] < rank[v]
  }

  lemma {:induction false} RankClimbs(arcs: Arcs, rank: map<string, nat>, p: seq<string>)
    requires Ranked(arcs, rank) && IsWalk(arcs, p) && |p| > 1
    ensures p[0] in rank && p[|p| - 1] in rank && rank[p[0]] < rank[p[|p| - 1]]
    decreases |p|
  {
    assert (p[0], p[1]) in arcs;
    if |p| > 2 {
      RankClimbs(arcs, rank, p[1..]);
    }
  }

  lemma RankedIsAcyclic(arcs: Arcs, rank: map<string, nat>)
    requires Ranked(arcs, rank)
    ensures Acyclic(arcs)
  {
    forall v ensures !OnCycle(arcs, v) {
      if OnCycle(arcs, v) {
        var w :| (v, w) in arcs && Reaches(arcs, w, v);
        var p :| WalkFromTo(arcs, w, v, p);
        assert IsWalk(arcs, [v] + p);
        RankClimbs(arcs, rank, [v] + p);
        assert false;
      }
    }
  }
}
