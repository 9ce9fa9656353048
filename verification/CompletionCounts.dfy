/**
 What one completion activates, counted over the positions of the workflow's own edge list: LIVE
 successors, and targets re-activated by back-edges.
 */
module CompletionCounts {
  import opened Workflow
  import opened Collections
  import opened DagModel
  import opened DagRuns
  import opened Navigator
  import opened JoinBarrier
  import opened Scheduler

  /** The positions of the edges a node leaves by. */
  ghost function FollowedAt(nodes: set<string>, edges: seq<Edge>, n: string, branch: Option<int>): set<nat> {
    set i: nat | i < |edges| && Follows(nodes, edges[i], n, branch)
  }

  lemma TakesAtPosition(nodes: set<string>, edges: seq<Edge>, g: Graph, at: seq<nat>, n: string, branch: Option<int>,
                        k: nat)
    requires KeptAt(nodes, edges, g.edges, at) && k < |at|
    ensures g.Takes(k, n, branch) <==> at[k] in FollowedAt(nodes, edges, n, branch)
  {
    assert at[k] in at;
  }

  lemma IncreasingIsInjective(at: seq<nat>, i: nat, j: nat)
    requires Increasing(at) && i < |at| && j < |at| && at[i] == at[j]
    ensures i == j
  {
  }

  /** Indices among the kept edges and positions in the workflow are the same number of things. */
  lemma {:induction false} SameSize(at: seq<nat>, ks: set<nat>, positions: set<nat>)
    requires Increasing(at) && forall k :: k in ks ==> k < |at| && at[k] in positions
    requires forall i :: i in positions ==> exists k :: k in ks && k < |at| && at[k] == i
    ensures |ks| == |positions|
    decreases ks
  {
    if ks == {} {
      assert positions == {};
    } else {
      var k :| k in ks;
      forall i | i in positions - {at[k]} ensures exists j :: j in ks - {k} && j < |at| && at[j] == i {
        var j :| j in ks && j < |at| && at[j] == i;
        assert j in ks - {k};
      }
      forall j | j in ks - {k} ensures at[j] in positions - {at[k]} {
        if at[j] == at[k] {
          IncreasingIsInjective(at, j, k);
        }
      }
      SameSize(at, ks - {k}, positions - {at[k]});
    }
  }

  /** The live count of a completion is the number of positions whose edge may be followed. */
  lemma LiveCountIsPositions(nodes: set<string>, edges: seq<Edge>, g: Graph, s: State, n: string, data: Payload,
                             branch: Option<int>)
    requires g.edges == TraversedEdges(nodes, edges)
    ensures Complete(g, s, n, data, branch).1.liveOutCount == |FollowedAt(nodes, edges, n, branch)|
  {
    hide Exec, CompleteAgenda, TraversedEdges, Follows;
    var at := TraversedByPosition(nodes, edges);
    var taken := g.Selected(n, branch);
    IncreasingSize(taken);
    forall k: nat ensures k in Elements(taken) <==> k < |at| && at[k] in FollowedAt(nodes, edges, n, branch) {
      if k < |at| {
        TakesAtPosition(nodes, edges, g, at, n, branch, k);
      }
    }
    forall i | i in FollowedAt(nodes, edges, n, branch)
      ensures exists k :: k in Elements(taken) && k < |at| && at[k] == i {
      FollowedIsKept(nodes, edges, g, at, n, branch, i);
      var k :| 0 <= k < |at| && at[k] == i;
      assert k in Elements(taken);
    }
    SameSize(at, Elements(taken), FollowedAt(nodes, edges, n, branch));
  }

  lemma FollowedIsKept(nodes: set<string>, edges: seq<Edge>, g: Graph, at: seq<nat>, n: string, branch: Option<int>,
                       i: nat)
    requires KeptAt(nodes, edges, g.edges, at) && i in FollowedAt(nodes, edges, n, branch)
    ensures i in at
  {
  }

  /** How many events of the log re-activate a node. */
  ghost function Reactivations(log: Log): nat {
    if log == [] then 0 else Reactivations(log[..|log| - 1]) + if log[|log| - 1].Reactivated? then 1 else 0
  }

  lemma {:induction false} ReactivationsSum(a: Log, b: Log)
    ensures Reactivations(a + b) == Reactivations(a) + Reactivations(b)
  {
    if b == [] {
      assert a + b == a;
    } else {
      ReactivationsSum(a, b[..|b| - 1]);
      assert (a + b)[..|a + b| - 1] == a + b[..|b| - 1];
    }
  }

  /** How many deliveries on the agenda go over back-edges. */
  ghost function BackEntries(g: Graph, agenda: seq<Item>): nat {
    if agenda == [] then 0 else BackEntries(g, agenda[..|agenda| - 1]) + if agenda[|agenda| - 1].edge in g.back then 1
       else 0
  }

  lemma {:induction false} BackEntriesSum(g: Graph, a: seq<Item>, b: seq<Item>)
    ensures BackEntries(g, a + b) == BackEntries(g, a) + BackEntries(g, b)
  {
    if b == [] {
      assert a + b == a;
    } else {
      BackEntriesSum(g, a, b[..|b| - 1]);
      assert (a + b)[..|a + b| - 1] == a + b[..|b| - 1];
    }
  }

  lemma {:induction false} NoBackEntries(g: Graph, agenda: seq<Item>)
    requires forall it :: it in agenda ==> it.edge !in g.back
    ensures BackEntries(g, agenda) == 0
  {
    if agenda != [] {
      NoBackEntries(g, agenda[..|agenda| - 1]);
    }
  }

  lemma StepReactivations(g: Graph, s: State, it: Item)
    requires it.edge < |g.edges|
    ensures Reactivations(StepLog(g, s, it)) == BackEntries(g, [it])
    ensures forall x :: x in Step(g, s, it).2 ==> x.edge !in g.back
  {
    hide Fire, PutToken, Merge, LiveSources, Saturated;
    var log := StepLog(g, s, it);
    assert [it][..0] == [];
    if |log| == 2 {
      assert log == [log[0]] + [log[1]];
      ReactivationsSum([log[0]], [log[1]]);
    }
    forall ev: Event ensures Reactivations([ev]) == if ev.Reactivated? then 1 else 0 {
      assert [ev][..0] == [];
    }
    assert log == [log[0]] || |log| == 2;
  }

  lemma {:induction false} ExecReactivations(g: Graph, s: State, agenda: seq<Item>)
    requires ValidItems(g, agenda)
    ensures Reactivations(ExecLog(g, s, agenda)) == BackEntries(g, agenda)
    decreases g.Targets() - s.dead, |agenda|
  {
    hide Step, StepLog;
    if agenda != [] {
      var (s1, ready, owed) := Step(g, s, agenda[0]);
      StepReactivations(g, s, agenda[0]);
      ExecReactivations(g, s1, owed + agenda[1..]);
      ReactivationsSum(StepLog(g, s, agenda[0]), ExecLog(g, s1, owed + agenda[1..]));
      NoBackEntries(g, owed);
      BackEntriesSum(g, owed, agenda[1..]);
      BackEntriesSum(g, [agenda[0]], agenda[1..]);
      assert agenda == [agenda[0]] + agenda[1..];
    }
  }

  ghost function BackAmong(g: Graph, es: seq<nat>): set<nat> {
    set e | e in es && e in g.back
  }

  lemma {:induction false} BackItems(g: Graph, es: seq<nat>, status: Status)
    requires Increasing(es)
    ensures BackEntries(g, Items(es, status)) == |BackAmong(g, es)|
  {
    hide Items, BackAmong;
    if es == [] {
      assert Items(es, status) == [];
      assert BackAmong(g, es) == {} by { NoBacks(g); }
    } else {
      var init, last := es[..|es| - 1], es[|es| - 1];
      BackItems(g, init, status);
      assert Items(es, status)[..|es| - 1] == Items(init, status);
      assert es == init + [last];
      OneMoreBack(g, init, last);
    }
  }

  lemma NoBacks(g: Graph)
    ensures BackAmong(g, []) == {}
  {
  }

  lemma OneMoreBack(g: Graph, init: seq<nat>, last: nat)
    requires Increasing(init + [last])
    ensures |BackAmong(g, init + [last])| == |BackAmong(g, init)| + if last in g.back then 1 else 0
  {
    var es := init + [last];
    assert forall k :: 0 <= k < |init| ==> es[k] == init[k] && es[k] < es[|init|];
    assert last !in init;
    assert BackAmong(g, es) == if last in g.back then BackAmong(g, init) + {last} else BackAmong(g, init);
  }

  /** What a completion re-activates, one for one: the positions followed whose edges are back-edges. */
  lemma ReactivationsArePositions(nodes: set<string>, edges: seq<Edge>, g: Graph, terminals: set<string>, r: Run,
                                  i: nat, out: Completion)
    returns (at: seq<nat>)
    requires g.edges == TraversedEdges(nodes, edges) && i < |r.pending| && r.pending[i].nodeId !in terminals
    ensures KeptAt(nodes, edges, g.edges, at)
    ensures Reactivations(FinishLog(g, terminals, r, i, out))
            == |set p | p in FollowedAt(nodes, edges, r.pending[i].nodeId, out.branch) && BackAt(g, at, p)|
  {
    hide ExecLog, CompleteAgenda, TraversedEdges, Follows, Items, Graph.Selected, Graph.Siblings;
    at := TraversedByPosition(nodes, edges);
    var n := r.pending[i].nodeId;
    var s1 := r.s.(outputs := r.s.outputs[n := out.data]);
    var agenda := CompleteAgenda(g, n, out.branch);
    ExecReactivations(g, s1, agenda);
    var done := [Completed(n, out.data)];
    assert done[..0] == [];
    ReactivationsSum(done, ExecLog(g, s1, agenda));
    CompletionBackEntries(g, n, out.branch);
    BackPositions(nodes, edges, g, at, n, out.branch);
  }

  /** The edge kept from position p is a back-edge. */
  ghost predicate BackAt(g: Graph, at: seq<nat>, p: nat) {
    exists k: nat :: k < |at| && at[k] == p && k in g.back
  }

  lemma CompletionBackEntries(g: Graph, n: string, branch: Option<int>)
    ensures BackEntries(g, CompleteAgenda(g, n, branch)) == |BackAmong(g, g.Selected(n, branch))|
  {
    hide BackEntries, Graph.Selected, Graph.Siblings, Items;
    var taken, others := Items(g.Selected(n, branch), Live), Items(g.Siblings(n, branch), Dead);
    BackEntriesSum(g, taken, others);
    BackItems(g, g.Selected(n, branch), Live);
    NoBackEntries(g, others);
  }

  lemma BackPositions(nodes: set<string>, edges: seq<Edge>, g: Graph, at: seq<nat>, n: string, branch: Option<int>)
    requires KeptAt(nodes, edges, g.edges, at)
    ensures |BackAmong(g, g.Selected(n, branch))|
            == |set p | p in FollowedAt(nodes, edges, n, branch) && BackAt(g, at, p)|
  {
    hide Graph.Selected, Follows;
    var ks := BackAmong(g, g.Selected(n, branch));
    var positions := set p | p in FollowedAt(nodes, edges, n, branch) && BackAt(g, at, p);
    forall k | k in ks ensures k < |at| && at[k] in positions {
      TakesAtPosition(nodes, edges, g, at, n, branch, k);
    }
    forall p | p in positions ensures exists k :: k in ks && k < |at| && at[k] == p {
      var k: nat :| k < |at| && at[k] == p && k in g.back;
      TakesAtPosition(nodes, edges, g, at, n, branch, k);
      assert k in ks;
    }
    SameSize(at, ks, positions);
  }
}
