/**
 Joins inside loops. A node is pruned once in a run and never again, so a join whose predecessor was
 pruned gets no second token from it by pruning: how often a join can run, in any run of any graph,
 and a run in which a join waits for ever.
 */
module LoopJoins {
  import opened Workflow
  import opened Digraph
  import opened DagModel
  import opened BackEdges
  import opened DagRuns
  import GraphAnalysis

  /** How often node n is on the list. */
  function Times(rs: seq<ReadyNode>, n: string): nat {
    if rs == [] then 0 else Times(rs[..|rs| - 1], n) + if rs[|rs| - 1].nodeId == n then 1 else 0
  }

  lemma {:induction false} TimesSum(a: seq<ReadyNode>, b: seq<ReadyNode>, n: string)
    ensures Times(a + b, n) == Times(a, n) + Times(b, n)
  {
    if b == [] {
      assert a + b == a;
    } else {
      var all := a + b;
      TimesSum(a, b[..|b| - 1], n);
      assert all[..|all| - 1] == a + b[..|b| - 1];
    }
  }

  lemma TimesWithout(rs: seq<ReadyNode>, i: nat, n: string)
    requires i < |rs|
    ensures Times(rs, n) == Times(WithoutAt(rs, i), n) + Times([rs[i]], n)
  {
    TimesSum(rs[..i], rs[i + 1..], n);
    TimesSum(rs[..i], [rs[i]], n);
    TimesSum(rs[..i] + [rs[i]], rs[i + 1..], n);
    assert rs == rs[..i] + [rs[i]] + rs[i + 1..];
  }

  /** How often the agenda delivers on e. */
  function Entries(agenda: seq<Item>, e: nat): nat {
    if agenda == [] then 0 else Entries(agenda[..|agenda| - 1], e) + if agenda[|agenda| - 1].edge == e then 1 else 0
  }

  lemma {:induction false} EntriesSum(a: seq<Item>, b: seq<Item>, e: nat)
    ensures Entries(a + b, e) == Entries(a, e) + Entries(b, e)
  {
    if b == [] {
      assert a + b == a;
    } else {
      var all := a + b;
      EntriesSum(a, b[..|b| - 1], e);
      assert all[..|all| - 1] == a + b[..|b| - 1];
    }
  }

  lemma {:induction false} EntriesOnce(agenda: seq<Item>, e: nat)
    requires forall i, j :: 0 <= i < j < |agenda| ==> agenda[i].edge != agenda[j].edge
    ensures Entries(agenda, e) == if OnAgenda(agenda, e) then 1 else 0
  {
    if agenda != [] {
      var init, last := agenda[..|agenda| - 1], agenda[|agenda| - 1];
      EntriesOnce(init, e);
      if OnAgenda(init, e) {
        var i :| 0 <= i < |init| && init[i].edge == e;
        assert agenda[i].edge == e;
      }
      if OnAgenda(agenda, e) && last.edge != e {
        var i :| 0 <= i < |agenda| && agenda[i].edge == e;
        assert init[i].edge == e;
      }
    }
  }

  function One(b: bool): nat {
    if b then 1 else 0
  }

  /** The tokens waiting at n are on its own in-edges. */
  ghost predicate OwnTokens(g: Graph, s: State, n: string) {
    forall k :: k in s.Tok(n) ==> g.Gates(k, n)
  }

  lemma OwedOnce(g: Graph, t: string, e: nat)
    requires e < |g.edges|
    ensures Entries(Items(g.ForwardOut(t), Dead), e) <= One(g.edges[e].source == t)
  {
    var out := g.ForwardOut(t);
    var owed := Items(out, Dead);
    forall i, j | 0 <= i < j < |owed| ensures owed[i].edge != owed[j].edge {
      assert out[i] < out[j];
    }
    EntriesOnce(owed, e);
    if OnAgenda(owed, e) {
      var i :| 0 <= i < |owed| && owed[i].edge == e;
      assert out[i] in out;
    }
  }

  /** A node reacts to its own table only. */
  lemma FireElsewhere(g: Graph, s: State, t: string, n: string)
    requires t != n
    ensures var (s1, ready, owed) := Fire(g, s, t);
            s1.Tok(n) == s.Tok(n) && Times(ready, n) == 0
  {
    hide Merge, LiveSources, Graph.ForwardIn, Graph.ForwardOut, Items;
    var (s1, ready, owed) := Fire(g, s, t);
    if ready != [] {
      assert ready[..|ready| - 1] == [];
    }
  }

  /** A node that runs or dies gives up the token on each in-edge. */
  lemma FireSpends(g: Graph, s: State, n: string, e: nat)
    requires g.Gates(e, n) && OwnTokens(g, s, n)
    ensures var (s1, ready, owed) := Fire(g, s, n);
            OwnTokens(g, s1, n) && Times(ready, n) + One(e in s1.Tok(n)) <= One(e in s.Tok(n))
  {
    hide Merge, LiveSources, Graph.ForwardIn, Graph.ForwardOut, Items;
    BarrierIsFullness(g, s.Tok(n), n);
    assert e in g.ForwardIn(n);
    var (s1, ready, owed) := Fire(g, s, n);
    if ready != [] {
      assert |ready| == 1 && ready[..0] == [];
    }
  }

  /** What a node owes when it dies, it owes once. */
  lemma FireOwes(g: Graph, s: State, t: string, e: nat)
    requires e < |g.edges|
    ensures var (s1, ready, owed) := Fire(g, s, t);
            Entries(owed, e) + One(g.edges[e].source in s.dead) <= One(g.edges[e].source in s1.dead)
  {
    hide Merge, LiveSources, Graph.ForwardIn, Graph.ForwardOut, Items;
    OwedOnce(g, t, e);
  }

  /** What a reaction costs: n runs only by giving up the token on e, and only a death puts e on the agenda. */
  lemma FireBudget(g: Graph, s: State, t: string, n: string, e: nat)
    requires g.Gates(e, n) && OwnTokens(g, s, n)
    ensures var (s1, ready, owed) := Fire(g, s, t);
            && OwnTokens(g, s1, n)
            && Times(ready, n) + One(e in s1.Tok(n)) + Entries(owed, e) + One(g.edges[e].source in s.dead)
               <= One(e in s.Tok(n)) + One(g.edges[e].source in s1.dead)
  {
    hide Fire, Times, Entries;
    FireOwes(g, s, t, e);
    if t == n {
      FireSpends(g, s, n, e);
    } else {
      FireElsewhere(g, s, t, n);
    }
  }

  lemma StepBudget(g: Graph, s: State, it: Item, n: string, e: nat)
    requires it.edge < |g.edges| && g.Gates(e, n) && OwnTokens(g, s, n)
    requires forall b :: b in g.back && b < |g.edges| ==> g.edges[b].target != n
    ensures var (s1, ready, owed) := Step(g, s, it);
            && OwnTokens(g, s1, n)
            && Times(ready, n) + One(e in s1.Tok(n)) + Entries(owed, e) + One(g.edges[e].source in s.dead)
               <= One(e in s.Tok(n)) + One(it.edge == e) + One(g.edges[e].source in s1.dead)
  {
    hide Fire;
    var (s1, ready, owed) := Step(g, s, it);
    if it.edge in g.back {
      assert ready[..0] == [];
    } else {
      FireBudget(g, PutToken(g, s, it), g.edges[it.edge].target, n, e);
    }
  }

  lemma {:induction false} ExecBudget(g: Graph, s: State, agenda: seq<Item>, n: string, e: nat)
    requires ValidItems(g, agenda) && g.Gates(e, n) && OwnTokens(g, s, n)
    requires forall b :: b in g.back && b < |g.edges| ==> g.edges[b].target != n
    ensures var (s1, ready) := Exec(g, s, agenda);
            && OwnTokens(g, s1, n)
            && Times(ready, n) + One(e in s1.Tok(n)) + One(g.edges[e].source in s.dead)
               <= One(e in s.Tok(n)) + Entries(agenda, e) + One(g.edges[e].source in s1.dead)
    decreases g.Targets() - s.dead, |agenda|
  {
    hide Step, OwnTokens;
    if agenda != [] {
      var (s1, ready, owed) := Step(g, s, agenda[0]);
      StepBudget(g, s, agenda[0], n, e);
      ExecBudget(g, s1, owed + agenda[1..], n, e);
      EntriesSum(owed, agenda[1..], e);
      EntriesSum([agenda[0]], agenda[1..], e);
      assert agenda == [agenda[0]] + agenda[1..];
      assert [agenda[0]][..0] == [];
      TimesSum(ready, Exec(g, s1, owed + agenda[1..]).1, n);
    }
  }

  /** A completion puts e on the agenda once at most, and only a completion of its source does. */
  lemma CompleteBudget(g: Graph, s: State, m: string, data: Payload, branch: Option<int>, n: string, e: nat)
    requires g.Gates(e, n) && OwnTokens(g, s, n)
    requires forall b :: b in g.back && b < |g.edges| ==> g.edges[b].target != n
    ensures var (s1, result) := Complete(g, s, m, data, branch);
            && OwnTokens(g, s1, n)
            && Times(result.ready, n) + One(e in s1.Tok(n)) + One(g.edges[e].source in s.dead)
               <= One(e in s.Tok(n)) + One(g.edges[e].source == m) + One(g.edges[e].source in s1.dead)
  {
    hide Exec, CompleteAgenda, Graph.Selected, Graph.Siblings;
    var recorded, agenda := s.(outputs := s.outputs[m := data]), CompleteAgenda(g, m, branch);
    AgendaByPosition(g, m, branch);
    EntriesOnce(agenda, e);
    ExecBudget(g, recorded, agenda, n, e);
  }

  /** Launches of n against what its predecessor over e has done. */
  ghost predicate WithinBudget(g: Graph, r: Run, n: string, e: nat)
    requires e < |g.edges|
  {
    var u := g.edges[e].source;
    && OwnTokens(g, r.s, n)
    && Times(r.done, n) + Times(r.pending, n) + One(e in r.s.Tok(n)) <= Times(r.done, u) + One(u in r.s.dead)
  }

  lemma FinishBudget(g: Graph, terminals: set<string>, r: Run, i: nat, out: Completion, n: string, e: nat)
    requires i < |r.pending| && g.Gates(e, n) && WithinBudget(g, r, n, e)
    requires forall b :: b in g.back && b < |g.edges| ==> g.edges[b].target != n
    ensures WithinBudget(g, FinishWith(g, terminals, r, i, out), n, e)
  {
    hide Complete, OwnTokens, WithoutAt;
    var node, rest, u := r.pending[i], WithoutAt(r.pending, i), g.edges[e].source;
    TimesWithout(r.pending, i, n);
    TimesSum(r.done, [node], n);
    TimesSum(r.done, [node], u);
    assert [node][..0] == [];
    if node.nodeId !in terminals {
      CompleteBudget(g, r.s, node.nodeId, out.data, out.branch, n, e);
      TimesSum(rest, Complete(g, r.s, node.nodeId, out.data, out.branch).1.ready, n);
    }
  }

  lemma {:induction false} DriveBudget(g: Graph, terminals: set<string>, r: Run, script: seq<Turn>, n: string, e: nat)
    requires g.Gates(e, n) && WithinBudget(g, r, n, e)
    requires forall b :: b in g.back && b < |g.edges| ==> g.edges[b].target != n
    ensures WithinBudget(g, Drive(g, terminals, r, script), n, e)
    decreases |script|
  {
    hide WithinBudget, FinishWith;
    if script != [] && r.pending != [] {
      var i := script[0].pick % |r.pending|;
      FinishBudget(g, terminals, r, i, script[0].out, n, e);
      DriveBudget(g, terminals, FinishWith(g, terminals, r, i, script[0].out), script[1..], n, e);
    }
  }

  /**
   How often a join runs. In every run of every graph, a node that no back-edge re-activates has been
   launched no more often than each of its predecessors has finished, but for one launch in the whole
   run that a predecessor can make up for by being pruned.
   */
  lemma JoinFollowsPredecessors(g: Graph, terminals: set<string>, script: seq<Turn>, n: string, e: nat)
    requires g.Gates(e, n) && n != g.start
    requires forall b :: b in g.back && b < |g.edges| ==> g.edges[b].target != n
    ensures var r, u := Drive(g, terminals, Begin(g), script), g.edges[e].source;
            Times(r.done, n) + Times(r.pending, n) <= Times(r.done, u) + One(u in r.s.dead)
  {
    hide Drive;
    var r := Begin(g);
    assert r.pending[..0] == [];
    assert WithinBudget(g, r, n, e);
    DriveBudget(g, terminals, r, script, n, e);
  }

  /** A router c leads to d or to e, both lead to the join j, and j leads back to c. */
  const ROUTED := Graph("s", [Edge("0", "s", "c", None), Edge("1", "c", "d", Some(Handle("c", 0))),
                              Edge("2", "c", "e", Some(Handle("c", 1))), Edge("3", "d", "j", None),
                              Edge("4", "e", "j", None), Edge("5", "j", "c", None)], {5})

  lemma HandlesDiffer()
    ensures Handle("c", 0) != Handle("c", 1)
  {
    var a, b := Handle("c", 0), Handle("c", 1);
    assert a[|a| - 1] == '0' && b[|b| - 1] == '1';
  }

  lemma OnlyOne(es: seq<nat>, x: nat)
    requires Increasing(es) && forall e: nat :: e in es <==> e == x
    ensures es == [x]
  {
    assert x in es;
    forall i | 0 <= i < |es| ensures es[i] == x {
      assert es[i] in es;
    }
    if |es| > 1 {
      DistinctPositions(es, 0, 1);
      assert false;
    }
  }

  lemma NoneAtAll(es: seq<nat>)
    requires forall e: nat :: e !in es
    ensures es == []
  {
    SomeListed(es);
  }

  lemma RoutedArcs()
    ensures ArcsOf(ROUTED.edges) == {("s", "c"), ("c", "d"), ("c", "e"), ("d", "j"), ("e", "j"), ("j", "c")}
  {
    var es := ROUTED.edges;
    assert (es[0].source, es[0].target) == ("s", "c") && (es[1].source, es[1].target) == ("c", "d");
    assert (es[2].source, es[2].target) == ("c", "e") && (es[3].source, es[3].target) == ("d", "j");
    assert (es[4].source, es[4].target) == ("e", "j") && (es[5].source, es[5].target) == ("j", "c");
  }

  /** START reaches all five nodes and nothing else, and c reaches j. */
  lemma RoutedReach(arcs: Arcs)
    requires arcs == {("s", "c"), ("c", "d"), ("c", "e"), ("d", "j"), ("e", "j"), ("j", "c")}
    ensures forall n :: Reaches(arcs, "s", n) <==> n in {"s", "c", "d", "e", "j"}
    ensures Reaches(arcs, "c", "j")
  {
    hide Reaches;
    ReachesSelf(arcs, "s");
    ReachesThenArc(arcs, "s", "s", "c");
    ReachesThenArc(arcs, "s", "c", "d");
    ReachesThenArc(arcs, "s", "c", "e");
    ReachesThenArc(arcs, "s", "d", "j");
    ReachesSelf(arcs, "c");
    ReachesThenArc(arcs, "c", "c", "d");
    ReachesThenArc(arcs, "c", "d", "j");
    var nodes := {"s", "c", "d", "e", "j"};
    assert ClosedUnder(arcs, nodes);
    forall n ensures Reaches(arcs, "s", n) <==> n in nodes {
      if Reaches(arcs, "s", n) {
        ReachesStaysIn(arcs, nodes, "s", n);
      }
    }
  }

  const DATES: map<string, nat> := map["j" := 0, "d" := 1, "e" := 2, "c" := 3, "s" := 4]

  lemma RoutedEdge(e: nat)
    requires e < |ROUTED.edges|
    ensures var edge := ROUTED.edges[e];
            && edge.source in DATES && edge.target in DATES && edge.source != edge.target
            && (DATES[edge.source] < DATES[edge.target] <==> e == 5)
               && (e == 5 ==> edge.source == "j" && edge.target == "c")
  {
    if e < 3 {
      assert ROUTED.edges[e].target in {"c", "d", "e"};
    } else {
      assert ROUTED.edges[e].target in {"j", "c"};
    }
  }

  lemma DatesDiffer()
    ensures DATES.Keys == {"s", "c", "d", "e", "j"}
    ensures forall u, v :: u in DATES && v in DATES && DATES[u] == DATES[v] ==> u == v
    ensures forall u :: u in DATES ==> DATES[u] <= DATES["s"]
  {
  }

  /** Its search marks the edge from j to c alone. */
  lemma RoutedSearch()
    ensures NoSelfEdges(ROUTED.edges) && SearchResult(ROUTED.start, ROUTED.edges, ROUTED.back, DATES)
  {
    hide Reaches, ArcsOf;
    RoutedArcs();
    RoutedReach(ArcsOf(ROUTED.edges));
    DatesDiffer();
    var g, dates := ROUTED, DATES;
    forall e: nat | e < |g.edges|
      ensures g.edges[e].source in dates && g.edges[e].target in dates && g.edges[e].source != g.edges[e].target
      ensures (dates[g.edges[e].source] < dates[g.edges[e].target] <==> e == 5)
      ensures e == 5 ==> g.edges[e].source == "j" && g.edges[e].target == "c"
    {
      RoutedEdge(e);
    }
    SearchFrom(g, dates);
  }

  lemma SearchFrom(g: Graph, dates: map<string, nat>)
    requires g.start in dates && g.back == {5} && |g.edges| == 6
    requires forall n :: n in dates <==> Reaches(ArcsOf(g.edges), g.start, n)
    requires forall u, v :: u in dates && v in dates && dates[u] == dates[v] ==> u == v
    requires forall u :: u in dates ==> dates[u] <= dates[g.start]
    requires forall e: nat :: e < 6 ==> g.edges[e].source in dates && g.edges[e].target in dates
                                        && (dates[g.edges[e].source] < dates[g.edges[e].target] <==> e == 5)
    requires Reaches(ArcsOf(g.edges), g.edges[5].target, g.edges[5].source)
    ensures SearchResult(g.start, g.edges, g.back, dates)
  {
    hide Reaches, ArcsOf;
  }

  /** The check of joins in loops flags j. */
  lemma RoutedIsFlagged()
    ensures GraphAnalysis.IsJoin(ArcsOf(ROUTED.edges), "j") && OnCycle(ArcsOf(ROUTED.edges), "j")
  {
    hide Reaches, ArcsOf;
    RoutedArcs();
    RoutedReach(ArcsOf(ROUTED.edges));
    assert ("j", "c") in ArcsOf(ROUTED.edges);
    assert ("d", "j") in ArcsOf(ROUTED.edges) && ("e", "j") in ArcsOf(ROUTED.edges);
  }

  /** Tokens wait at j only. */
  ghost predicate Waiting(s: State, tok: map<nat, Status>, dead: set<string>) {
    s.dead == dead && forall t :: s.Tok(t) == if t == "j" then tok else map[]
  }

  /** The tables once a token is put, and once the table it is put in is cleared. */
  lemma PutAndClear(g: Graph, s: State, it: Item)
    requires it.edge < |g.edges|
    ensures var t, put := g.edges[it.edge].target, PutToken(g, s, it);
            var cleared := put.(tokens := put.tokens[t := map[]]);
            && (forall u :: put.Tok(u) == if u == t then s.Tok(t)[it.edge := it.status] else s.Tok(u))
            && (forall u :: cleared.Tok(u) == if u == t then map[] else s.Tok(u))
            && put.dead == s.dead
  {
  }

  lemma WaitingSame(s: State, s1: State, tok: map<nat, Status>, dead: set<string>)
    requires Waiting(s, tok, dead) && s1.tokens == s.tokens
    ensures Waiting(s1, tok, s1.dead)
  {
    assert forall t :: s1.Tok(t) == s.Tok(t);
  }

  /** A LIVE token on the one in-edge of a node runs it. */
  lemma SoleRuns(s: State, e: nat, t: string, tok: map<nat, Status>, dead: set<string>)
    requires e < |ROUTED.edges| && e !in ROUTED.back && ROUTED.edges[e].target == t != "j"
    requires ROUTED.ForwardIn(t) == [e] && Waiting(s, tok, dead)
    ensures var (s1, ready) := Exec(ROUTED, s, [Item(e, Live)]);
            Waiting(s1, tok, dead) && |ready| == 1 && ready[0].nodeId == t
  {
    hide Exec, PutToken, State.Tok, Graph.ForwardIn, Merge, LiveSources;
    var it := Item(e, Live);
    var put := PutToken(ROUTED, s, it);
    ExecForward(ROUTED, s, it);
    PutAndClear(ROUTED, s, it);
    assert put.Tok(t) == map[e := Live];
    assert |put.Tok(t).Keys| == 1;
    assert e in LiveSources(ROUTED, put.Tok(t), t);
    FireRuns(ROUTED, put, t);
  }

  lemma RouterEdges()
    ensures ROUTED.ForwardIn("c") == [0] && ROUTED.ForwardIn("d") == [1] && ROUTED.ForwardIn("e") == [2]
    ensures ROUTED.ForwardOut("d") == [3]
  {
    hide Graph.ForwardIn, Graph.ForwardOut;
    OnlyOne(ROUTED.ForwardIn("c"), 0);
    OnlyOne(ROUTED.ForwardIn("d"), 1);
    OnlyOne(ROUTED.ForwardIn("e"), 2);
    OnlyOne(ROUTED.ForwardOut("d"), 3);
  }

  lemma JoinEdges(tok: map<nat, Status>)
    requires forall e :: e in tok ==> e == 3 || e == 4
    ensures |tok| < |ROUTED.ForwardIn("j")| <==> 3 !in tok || 4 !in tok
    ensures ROUTED.ForwardIn("j") != []
  {
    hide Graph.ForwardIn;
    assert forall e: nat :: ROUTED.Gates(e, "j") <==> e == 3 || e == 4;
    BarrierIsFullness(ROUTED, tok, "j");
    assert 3 in ROUTED.ForwardIn("j");
  }

  /** A token at j while the other edge is empty waits. */
  lemma JoinWaits(s: State, it: Item, dead: set<string>)
    requires (it.edge == 3 || it.edge == 4) && Waiting(s, map[], dead)
    ensures var (s1, ready) := Exec(ROUTED, s, [it]);
            Waiting(s1, map[it.edge := it.status], dead) && ready == []
  {
    hide Exec, PutToken, State.Tok, Graph.ForwardIn;
    var put := PutToken(ROUTED, s, it);
    ExecForward(ROUTED, s, it);
    PutAndClear(ROUTED, s, it);
    JoinEdges(map[it.edge := it.status]);
    assert put.Tok("j") == map[it.edge := it.status];
    FireWaits(ROUTED, put, "j");
  }

  /** The second token, LIVE, runs j. */
  lemma JoinRuns(s: State, dead: set<string>)
    requires Waiting(s, map[3 := Dead], dead)
    ensures var (s1, ready) := Exec(ROUTED, s, [Item(4, Live)]);
            Waiting(s1, map[], dead) && |ready| == 1 && ready[0].nodeId == "j"
  {
    hide Exec, PutToken, State.Tok, Graph.ForwardIn, Merge, LiveSources;
    var it := Item(4, Live);
    var put := PutToken(ROUTED, s, it);
    ExecForward(ROUTED, s, it);
    PutAndClear(ROUTED, s, it);
    JoinEdges(map[3 := Dead, 4 := Live]);
    assert put.Tok("j") == map[3 := Dead, 4 := Live];
    assert 4 in LiveSources(ROUTED, put.Tok("j"), "j");
    FireRuns(ROUTED, put, "j");
  }

  /** DEAD to d for the first time goes on to j; later it goes nowhere. */
  lemma PruneD(s: State, dead: set<string>)
    requires Waiting(s, map[], dead)
    ensures var (s1, ready) := Exec(ROUTED, s, [Item(1, Dead)]);
            Waiting(s1, if "d" in dead then map[] else map[3 := Dead], dead + {"d"}) && ready == []
  {
    hide Exec, PutToken, State.Tok, Graph.ForwardIn, Graph.ForwardOut, Items, LiveSources;
    RouterEdges();
    var it := Item(1, Dead);
    var put := PutToken(ROUTED, s, it);
    ExecForward(ROUTED, s, it);
    PutAndClear(ROUTED, s, it);
    assert put.Tok("d") == map[1 := Dead];
    assert |put.Tok("d").Keys| == 1;
    var live := LiveSources(ROUTED, put.Tok("d"), "d");
    NoneAtAll(live);
    FireDies(ROUTED, put, "d");
    var cleared := put.(tokens := put.tokens["d" := map[]]);
    assert Waiting(cleared, map[], dead);
    if "d" in dead {
      assert dead + {"d"} == dead;
    } else {
      var s1 := cleared.(dead := put.dead + {"d"});
      assert Items([3], Dead) == [Item(3, Dead)];
      WaitingSame(cleared, s1, map[], dead);
      JoinWaits(s1, Item(3, Dead), dead + {"d"});
    }
  }

  lemma Leaving(n: string, e: nat)
    requires (n == "s" && e == 0) || (n == "e" && e == 4) || (n == "j" && e == 5)
    ensures CompleteAgenda(ROUTED, n, None) == [Item(e, Live)]
  {
    hide Graph.Selected, Graph.Siblings;
    OnlyOne(ROUTED.Selected(n, None), e);
    NoneAtAll(ROUTED.Siblings(n, None));
    assert Items([e], Live) == [Item(e, Live)];
    assert [Item(e, Live)] + Items([], Dead) == [Item(e, Live)];
  }

  lemma LeavingByE()
    ensures CompleteAgenda(ROUTED, "c", Some(1)) == [Item(2, Live)] + [Item(1, Dead)]
  {
    hide Graph.Selected, Graph.Siblings, Handle;
    HandlesDiffer();
    OnlyOne(ROUTED.Selected("c", Some(1)), 2);
    assert !ROUTED.LoopsBack("c", Some(1));
    OnlyOne(ROUTED.Siblings("c", Some(1)), 1);
    assert Items([2], Live) == [Item(2, Live)] && Items([1], Dead) == [Item(1, Dead)];
  }

  /** The router leaves by e. */
  lemma RouterDone(s: State, data: Payload, dead: set<string>)
    requires Waiting(s, map[], dead)
    ensures var (s1, result) := Complete(ROUTED, s, "c", data, Some(1));
            && Waiting(s1, if "d" in dead then map[] else map[3 := Dead], dead + {"d"})
            && |result.ready| == 1 && result.ready[0].nodeId == "e"
  {
    hide Exec, CompleteAgenda, Graph.Selected, Graph.ForwardIn, Graph.ForwardOut, Waiting;
    LeavingByE();
    RouterEdges();
    var s1 := s.(outputs := s.outputs["c" := data]);
    WaitingHas(s, map[], dead);
    WaitingSame(s, s1, map[], dead);
    ExecAppend(ROUTED, s1, [Item(2, Live)], [Item(1, Dead)]);
    SoleRuns(s1, 2, "e", map[], dead);
    PruneD(Exec(ROUTED, s1, [Item(2, Live)]).0, dead);
  }

  lemma WaitingHas(s: State, tok: map<nat, Status>, dead: set<string>)
    requires Waiting(s, tok, dead)
    ensures s.dead == dead
  {
  }

  /** Any other node leaves by its one edge. */
  lemma NodeDone(s: State, n: string, data: Payload, tok: map<nat, Status>, dead: set<string>)
    requires Waiting(s, tok, dead) && n in {"s", "e", "j"}
    requires n == "e" ==> tok == map[] || tok == map[3 := Dead]
    ensures var (s1, result) := Complete(ROUTED, s, n, data, None);
            if n != "e" then Waiting(s1, tok, dead) && |result.ready| == 1 && result.ready[0].nodeId == "c"
            else if tok == map[] then Waiting(s1, map[4 := Live], dead) && result.ready == []
            else Waiting(s1, map[], dead) && |result.ready| == 1 && result.ready[0].nodeId == "j"
  {
    hide Exec, CompleteAgenda, Graph.ForwardIn, Graph.ForwardOut;
    RouterEdges();
    var s1 := s.(outputs := s.outputs[n := data]);
    assert forall t :: s1.Tok(t) == s.Tok(t);
    if n == "s" {
      Leaving("s", 0);
      SoleRuns(s1, 0, "c", tok, dead);
    } else if n == "j" {
      Leaving("j", 5);
      ReactivateStep(ROUTED, s1, Item(5, Live));
    } else {
      Leaving("e", 4);
      if tok == map[] {
        JoinWaits(s1, Item(4, Live), dead);
      } else {
        JoinRuns(s1, dead);
      }
    }
  }

  /** A run with one node in flight, which finishes. */
  ghost predicate Alone(r: Run, n: string, tok: map<nat, Status>, dead: set<string>, names: seq<string>) {
    && |r.pending| == 1 && r.pending[0].nodeId == n && Waiting(r.s, tok, dead)
    && |r.done| == |names| && forall i :: 0 <= i < |names| ==> r.done[i].nodeId == names[i]
  }

  function TurnOf(n: string): Turn {
    Turn(0, Completion(map[], if n == "c" then Some(1) else None))
  }

  /** Nothing is in flight, and j holds the token of e. */
  ghost predicate Stuck(r: Run, dead: set<string>, names: seq<string>) {
    && r.pending == [] && Waiting(r.s, map[4 := Live], dead)
    && |r.done| == |names| && forall i :: 0 <= i < |names| ==> r.done[i].nodeId == names[i]
  }

  /** Where a run stands after its one node in flight has finished. */
  ghost predicate Moved(r: Run, n: string, tok: map<nat, Status>, dead: set<string>, names: seq<string>) {
    if n == "s" || n == "j" then Alone(r, "c", tok, dead, names)
    else if n == "c" then Alone(r, "e", if "d" in dead then map[] else map[3 := Dead], dead + {"d"}, names)
    else if tok != map[] then Alone(r, "j", map[], dead, names)
    else Stuck(r, dead, names)
  }

  lemma AloneFinishes(r: Run, n: string, tok: map<nat, Status>, dead: set<string>, names: seq<string>)
    requires Alone(r, n, tok, dead, names) && n in {"s", "c", "e", "j"}
    requires if n == "c" then tok == map[] else n == "e" ==> tok == map[] || tok == map[3 := Dead]
    ensures Moved(FinishWith(ROUTED, {}, r, 0, TurnOf(n).out), n, tok, dead, names + [n])
  {
    hide Complete, Waiting;
    assert WithoutAt(r.pending, 0) == [];
    if n == "c" {
      RouterDone(r.s, map[], dead);
    } else {
      NodeDone(r.s, n, map[], tok, dead);
    }
  }

  /** The first time round the router leaves by e, d is pruned and j runs. */
  lemma FirstRound(script: seq<Turn>) returns (r: Run)
    requires |script| >= 4 && script[..4] == [TurnOf("s"), TurnOf("c"), TurnOf("e"), TurnOf("j")]
    ensures Alone(r, "c", map[], {"d"}, ["s", "c", "e", "j"])
    ensures Drive(ROUTED, {}, Begin(ROUTED), script) == Drive(ROUTED, {}, r, script[4..])
  {
    hide FinishWith, Alone, Drive;
    var one, two, first := ["s"], ["s", "c"], map[3 := Dead];
    assert [] + ["s"] == one && one + ["c"] == two && two + ["e"] == ["s", "c", "e"];
    assert ["s", "c", "e"] + ["j"] == ["s", "c", "e", "j"] && {} + {"d"} == {"d"} && 3 in first;
    forall i | 0 <= i < 4 ensures script[i] == script[..4][i] {
    }
    BeginsAlone();
    r := OneTurn(Begin(ROUTED), "s", map[], {}, [], script);
    r := OneTurn(r, "c", map[], {}, one, script[1..]);
    r := OneTurn(r, "e", first, {"d"}, two, script[1..][1..]);
    r := OneTurn(r, "j", map[], {"d"}, ["s", "c", "e"], script[1..][1..][1..]);
    assert script[1..][1..][1..][1..] == script[4..];
  }

  /** The second time d, already dead, passes nothing on. */
  lemma SecondRound(r0: Run, script: seq<Turn>, names: seq<string>) returns (r: Run)
    requires Alone(r0, "c", map[], {"d"}, names) && script == [TurnOf("c"), TurnOf("e")]
    ensures Stuck(r, {"d"}, names + ["c"] + ["e"]) && Drive(ROUTED, {}, r0, script) == r
  {
    hide FinishWith, Alone, Drive, Stuck;
    assert {"d"} + {"d"} == {"d"};
    r := OneTurn(r0, "c", map[], {"d"}, names, script);
    r := OneTurn(r, "e", map[], {"d"}, names + ["c"], script[1..]);
    DriveNothing(r, script[1..][1..]);
  }

  /**
   The failing run. The router leaves by e twice. The first time d is pruned and j runs; the second
   time d, already dead, passes nothing on, and j keeps the token of e for ever.
   */
  lemma SecondPruneStarves() returns (script: seq<Turn>)
    ensures var r := Drive(ROUTED, {}, Begin(ROUTED), script);
            && r.pending == [] && r.s.Tok("j") == map[4 := Live] && r.s.dead == {"d"}
            && Times(r.done, "j") == 1 && Times(r.done, "e") == 2
  {
    hide FinishWith, Alone, Drive, Times, Stuck;
    script := [TurnOf("s"), TurnOf("c"), TurnOf("e"), TurnOf("j"), TurnOf("c"), TurnOf("e")];
    assert script[..4] == [TurnOf("s"), TurnOf("c"), TurnOf("e"), TurnOf("j")];
    var r := FirstRound(script);
    assert script[4..] == [TurnOf("c"), TurnOf("e")];
    r := SecondRound(r, script[4..], ["s", "c", "e", "j"]);
    var names := ["s", "c", "e", "j"] + ["c"] + ["e"];
    Starved(r, {"d"}, names);
    assert names == ["s", "c", "e", "j", "c", "e"];
  }

  lemma DriveNothing(r: Run, script: seq<Turn>)
    requires script == []
    ensures Drive(ROUTED, {}, r, script) == r
  {
  }

  lemma Starved(r: Run, dead: set<string>, names: seq<string>)
    requires Stuck(r, dead, names)
    ensures r.pending == [] && r.s.Tok("j") == map[4 := Live] && r.s.dead == dead
    ensures forall n :: Times(r.done, n) == multiset(names)[n]
  {
    forall n ensures Times(r.done, n) == multiset(names)[n] {
      TimesNamed(r.done, names, n);
    }
  }

  lemma {:induction false} TimesNamed(rs: seq<ReadyNode>, names: seq<string>, n: string)
    requires |rs| == |names| && forall i :: 0 <= i < |rs| ==> rs[i].nodeId == names[i]
    ensures Times(rs, n) == multiset(names)[n]
  {
    if rs != [] {
      var init, last := names[..|names| - 1], names[|names| - 1];
      TimesNamed(rs[..|rs| - 1], init, n);
      assert names == init + [last];
    }
  }

  lemma BeginsAlone()
    ensures Alone(Begin(ROUTED), "s", map[], {}, [])
  {
  }

  lemma OneTurn(r: Run, n: string, tok: map<nat, Status>, dead: set<string>, names: seq<string>, script: seq<Turn>)
    returns (r1: Run)
    requires Alone(r, n, tok, dead, names) && n in {"s", "c", "e", "j"}
    requires if n == "c" then tok == map[] else n == "e" ==> tok == map[] || tok == map[3 := Dead]
    requires script != [] && script[0] == TurnOf(n)
    ensures Moved(r1, n, tok, dead, names + [n])
    ensures Drive(ROUTED, {}, r, script) == Drive(ROUTED, {}, r1, script[1..])
  {
    hide FinishWith, Moved;
    r1 := FinishWith(ROUTED, {}, r, 0, TurnOf(n).out);
    AloneFinishes(r, n, tok, dead, names);
  }
}
