/**
 The two engines agree where both apply. On a graph without forks and joins, over every run and
 loops included, the scheduler makes ready exactly the node the sequential engine steps to, and
 holds no token between calls.
 */
module EngineAgreement {
  import opened Workflow
  import opened Digraph
  import opened DagModel
  import opened BackEdges
  import opened DagRuns
  import opened Navigator
  import GraphAnalysis
  import Scheduler

  /** Edges into one node leave one node. */
  ghost predicate SingleSources(g: Graph) {
    forall e, f :: 0 <= e < |g.edges| && 0 <= f < |g.edges| && g.edges[e].target == g.edges[f].target
        ==> g.edges[e].source == g.edges[f].source
  }

  ghost predicate Static(g: Graph, finish: map<string, nat>) {
    NoSelfEdges(g.edges) && SearchResult(g.start, g.edges, g.back, finish) && SingleSources(g)
  }

  /** Edges whose source is in the wave a completion of n sets off: n itself or a node pruned. */
  ghost predicate Sourced(g: Graph, s: State, finish: map<string, nat>, n: string, e: nat) {
    && e < |g.edges| && e !in g.back
    && (g.edges[e].source == n || g.edges[e].source in s.dead)
    && g.edges[e].source in finish && n in finish && finish[g.edges[e].source] <= finish[n]
  }

  ghost predicate AgendaWave(g: Graph, s: State, agenda: seq<Item>, finish: map<string, nat>, n: string, t0: string) {
    && (forall i :: 0 <= i < |agenda| ==> Sourced(g, s, finish, n, agenda[i].edge))
    && (forall i :: 0 <= i < |agenda| && agenda[i].status == Live
                    ==> g.edges[agenda[i].edge].source == n && g.edges[agenda[i].edge].target == t0)
    && (forall i, j :: 0 <= i < j < |agenda| ==> agenda[i].edge != agenda[j].edge)
  }

  ghost predicate Bound(g: Graph, agenda: seq<Item>, t: string) {
    exists i :: 0 <= i < |agenda| && agenda[i].edge < |g.edges| && g.edges[agenda[i].edge].target == t
  }

  /** Tokens waiting at t come from the wave, and the wave still owes t the rest. */
  ghost predicate TableWave(g: Graph, s: State, agenda: seq<Item>, finish: map<string, nat>, n: string, t0: string,
                            t: string)
  {
    && (forall e :: e in s.Tok(t) ==> g.Gates(e, t) && Sourced(g, s, finish, n, e) && !OnAgenda(agenda, e))
    && (forall e :: e in s.Tok(t) && s.Tok(t)[e] == Live ==> g.edges[e].source == n && t == t0)
    && (s.Tok(t) != map[] ==> Bound(g, agenda, t))
    && (Bound(g, agenda, t) ==> forall e: nat :: g.Gates(e, t) ==> e in s.Tok(t) || OnAgenda(agenda, e))
  }

  ghost predicate TablesWave(g: Graph, s: State, agenda: seq<Item>, finish: map<string, nat>, n: string, t0: string) {
    forall t :: TableWave(g, s, agenda, finish, n, t0, t)
  }

  ghost predicate Wave(g: Graph, s: State, agenda: seq<Item>, finish: map<string, nat>, n: string, t0: string) {
    Static(g, finish) && AgendaWave(g, s, agenda, finish, n, t0) && TablesWave(g, s, agenda, finish, n, t0)
  }

  ghost predicate LiveItem(agenda: seq<Item>) {
    exists i :: 0 <= i < |agenda| && agenda[i].status == Live
  }

  ghost predicate LiveToken(tok: map<nat, Status>) {
    exists e :: e in tok && tok[e] == Live
  }

  /** t0 is still owed a LIVE token, or waits with one. */
  ghost predicate Awaited(s: State, agenda: seq<Item>, t0: string) {
    LiveItem(agenda) || LiveToken(s.Tok(t0))
  }

  ghost predicate AllEmpty(s: State) {
    forall t :: s.Tok(t) == map[]
  }

  lemma TargetFinishesEarlier(g: Graph, s: State, finish: map<string, nat>, n: string, e: nat)
    requires Static(g, finish) && Sourced(g, s, finish, n, e)
    ensures var t := g.edges[e].target; t in finish && finish[t] < finish[n] && t != n
  {
    hide Reaches;
    assert finish[g.edges[e].source] != finish[g.edges[e].target];
  }

  /** Facts about the first delivery of a wave. */
  lemma HeadOfWave(g: Graph, s: State, agenda: seq<Item>, finish: map<string, nat>, n: string, t0: string)
    requires Wave(g, s, agenda, finish, n, t0) && agenda != []
    ensures var e := agenda[0].edge;
            && Sourced(g, s, finish, n, e) && g.Gates(e, g.edges[e].target) && g.ForwardIn(g.edges[e].target) != []
            && !OnAgenda(agenda[1..], e)
            && (forall u :: e !in s.Tok(u))
  {
    hide Static;
    var e := agenda[0].edge;
    assert Sourced(g, s, finish, n, agenda[0].edge);
    assert OnAgenda(agenda, e);
    assert e in g.ForwardIn(g.edges[e].target);
    forall u ensures e !in s.Tok(u) {
      assert TableWave(g, s, agenda, finish, n, t0, u);
    }
  }

  /** The agenda without its head. */
  lemma TailOnAgenda(agenda: seq<Item>, e: nat)
    requires agenda != []
    ensures OnAgenda(agenda, e) <==> e == agenda[0].edge || OnAgenda(agenda[1..], e)
  {
    if OnAgenda(agenda, e) && e != agenda[0].edge {
      var i :| 0 <= i < |agenda| && agenda[i].edge == e;
      assert agenda[1..][i - 1].edge == e;
    }
    if OnAgenda(agenda[1..], e) {
      var i :| 0 <= i < |agenda[1..]| && agenda[1..][i].edge == e;
      assert agenda[i + 1].edge == e;
    }
  }

  lemma TailBound(g: Graph, agenda: seq<Item>, t: string)
    requires agenda != [] && agenda[0].edge < |g.edges|
    ensures Bound(g, agenda, t) <==> t == g.edges[agenda[0].edge].target || Bound(g, agenda[1..], t)
  {
    if Bound(g, agenda, t) && t != g.edges[agenda[0].edge].target {
      var i :| 0 <= i < |agenda| && agenda[i].edge < |g.edges| && g.edges[agenda[i].edge].target == t;
      assert agenda[1..][i - 1] == agenda[i];
    }
    if Bound(g, agenda[1..], t) {
      var i :| 0 <= i < |agenda[1..]| && agenda[1..][i].edge < |g.edges| && g.edges[agenda[1..][i].edge].target == t;
      assert agenda[i + 1] == agenda[1..][i];
    }
  }

  lemma HeadLive(g: Graph, s: State, agenda: seq<Item>, finish: map<string, nat>, n: string, t0: string)
    requires AgendaWave(g, s, agenda, finish, n, t0) && agenda != [] && agenda[0].edge < |g.edges|
    ensures agenda[0].status == Live ==> g.edges[agenda[0].edge].source == n && g.edges[agenda[0].edge].target == t0
  {
  }

  /** After the head is delivered the table of its target is covered; the other tables are as before. */
  lemma PutWave(g: Graph, s: State, agenda: seq<Item>, finish: map<string, nat>, n: string, t0: string)
    requires Wave(g, s, agenda, finish, n, t0) && agenda != [] && agenda[0].edge < |g.edges|
    ensures var s', t := PutToken(g, s, agenda[0]), g.edges[agenda[0].edge].target;
            && (forall e :: e in s'.Tok(t)
                            ==> g.Gates(e, t) && Sourced(g, s, finish, n, e) && !OnAgenda(agenda[1..], e))
            && (forall e :: e in s'.Tok(t) && s'.Tok(t)[e] == Live ==> g.edges[e].source == n && t == t0)
            && (forall e: nat :: g.Gates(e, t) ==> e in s'.Tok(t) || OnAgenda(agenda[1..], e))
            && (forall u :: u != t ==> TableWave(g, s, agenda[1..], finish, n, t0, u))
  {
    hide Static, Sourced, OnAgenda, Bound, AgendaWave, Graph.ForwardIn;
    HeadOfWave(g, s, agenda, finish, n, t0);
    HeadLive(g, s, agenda, finish, n, t0);
    var t := g.edges[agenda[0].edge].target;
    forall e: nat ensures OnAgenda(agenda, e) <==> e == agenda[0].edge || OnAgenda(agenda[1..], e) {
      TailOnAgenda(agenda, e);
    }
    forall u ensures Bound(g, agenda, u) <==> u == t || Bound(g, agenda[1..], u) {
      TailBound(g, agenda, u);
    }
    assert TableWave(g, s, agenda, finish, n, t0, t);
    forall u | u != t ensures TableWave(g, s, agenda[1..], finish, n, t0, u) {
      assert TableWave(g, s, agenda, finish, n, t0, u);
    }
  }

  lemma AgendaWaveTail(g: Graph, s: State, agenda: seq<Item>, finish: map<string, nat>, n: string, t0: string,
                       s': State)
    requires AgendaWave(g, s, agenda, finish, n, t0) && agenda != [] && s.dead <= s'.dead
    ensures AgendaWave(g, s', agenda[1..], finish, n, t0)
  {
    forall i | 0 <= i < |agenda[1..]| ensures Sourced(g, s', finish, n, agenda[1..][i].edge) {
      assert agenda[1..][i] == agenda[i + 1];
      assert Sourced(g, s, finish, n, agenda[i + 1].edge);
    }
  }

  lemma TableUnmoved(g: Graph, s: State, agenda: seq<Item>, finish: map<string, nat>, n: string, t0: string, t: string,
                     s': State)
    requires TableWave(g, s, agenda, finish, n, t0, t) && s'.Tok(t) == s.Tok(t) && s.dead <= s'.dead
    ensures TableWave(g, s', agenda, finish, n, t0, t)
  {
    hide OnAgenda, Bound;
  }

  /** The head leaves its target waiting for more of the wave. */
  lemma WaveWaits(g: Graph, s: State, agenda: seq<Item>, finish: map<string, nat>, n: string, t0: string)
    requires Wave(g, s, agenda, finish, n, t0) && agenda != [] && agenda[0].edge < |g.edges|
    requires !Saturated(g, PutToken(g, s, agenda[0]), g.edges[agenda[0].edge].target)
    ensures Wave(g, PutToken(g, s, agenda[0]), agenda[1..], finish, n, t0)
    ensures Awaited(PutToken(g, s, agenda[0]), agenda[1..], t0) <==> Awaited(s, agenda, t0)
  {
    hide Static, AgendaWave, TablesWave, OnAgenda, Awaited, TableWave;
    PutWave(g, s, agenda, finish, n, t0);
    HeadOfWave(g, s, agenda, finish, n, t0);
    var s', t := PutToken(g, s, agenda[0]), g.edges[agenda[0].edge].target;
    AgendaWaveTail(g, s, agenda, finish, n, t0, s');
    HeadLive(g, s, agenda, finish, n, t0);
    AwaitedAfterPut(g, s, agenda, t0);
    WaitingTable(g, s', agenda[1..], finish, n, t0, t);
    assert TablesWave(g, s', agenda[1..], finish, n, t0) by { OtherTables(g, s, agenda[1..], finish, n, t0, t, s'); }
  }

  /** All tables are in order if one is and the others have not changed. */
  lemma OtherTables(g: Graph, s: State, agenda: seq<Item>, finish: map<string, nat>, n: string, t0: string, t: string,
                    s': State)
    requires forall u :: u != t ==> TableWave(g, s, agenda, finish, n, t0, u) && s'.Tok(u) == s.Tok(u)
    requires s.dead <= s'.dead && TableWave(g, s', agenda, finish, n, t0, t)
    ensures TablesWave(g, s', agenda, finish, n, t0)
  {
    hide TableWave;
    forall u ensures TableWave(g, s', agenda, finish, n, t0, u) {
      if u != t {
        TableUnmoved(g, s, agenda, finish, n, t0, u, s');
      }
    }
  }

  lemma WaitingTable(g: Graph, s: State, agenda: seq<Item>, finish: map<string, nat>, n: string, t0: string, t: string)
    requires !Saturated(g, s, t) && g.ForwardIn(t) != []
    requires forall e :: e in s.Tok(t) ==> g.Gates(e, t) && Sourced(g, s, finish, n, e) && !OnAgenda(agenda, e)
    requires forall e :: e in s.Tok(t) && s.Tok(t)[e] == Live ==> g.edges[e].source == n && t == t0
    requires forall e: nat :: g.Gates(e, t) ==> e in s.Tok(t) || OnAgenda(agenda, e)
    ensures TableWave(g, s, agenda, finish, n, t0, t)
  {
    hide OnAgenda, Bound, Sourced, Saturated, Graph.ForwardIn;
    StillOwed(g, s.Tok(t), agenda, s, t);
  }

  lemma StillOwed(g: Graph, tok: map<nat, Status>, agenda: seq<Item>, s: State, t: string)
    requires !Saturated(g, s, t) && g.ForwardIn(t) != [] && tok == s.Tok(t)
    requires forall e :: e in tok ==> g.Gates(e, t)
    requires forall e: nat :: g.Gates(e, t) ==> e in tok || OnAgenda(agenda, e)
    ensures Bound(g, agenda, t)
  {
    hide OnAgenda, Bound;
    BarrierIsFullness(g, tok, t);
    var missing: nat :| g.Gates(missing, t) && missing !in tok;
    OnAgendaIsBound(g, agenda, missing);
  }

  lemma OnAgendaIsBound(g: Graph, agenda: seq<Item>, e: nat)
    requires OnAgenda(agenda, e) && e < |g.edges|
    ensures Bound(g, agenda, g.edges[e].target)
  {
  }

  lemma AwaitedAfterPut(g: Graph, s: State, agenda: seq<Item>, t0: string)
    requires agenda != [] && agenda[0].edge < |g.edges| && agenda[0].edge !in s.Tok(g.edges[agenda[0].edge].target)
    requires agenda[0].status == Live ==> g.edges[agenda[0].edge].target == t0
    ensures Awaited(PutToken(g, s, agenda[0]), agenda[1..], t0) <==> Awaited(s, agenda, t0)
  {
    var s', e := PutToken(g, s, agenda[0]), agenda[0].edge;
    if LiveItem(agenda) {
      var i :| 0 <= i < |agenda| && agenda[i].status == Live;
      if i == 0 {
        assert s'.Tok(t0)[e] == Live;
      } else {
        assert agenda[1..][i - 1].status == Live;
      }
    }
    if LiveItem(agenda[1..]) {
      var i :| 0 <= i < |agenda[1..]| && agenda[1..][i].status == Live;
      assert agenda[i + 1].status == Live;
    }
    if LiveToken(s.Tok(t0)) {
      var f :| f in s.Tok(t0) && s.Tok(t0)[f] == Live;
      assert s'.Tok(t0)[f] == Live;
    }
    if LiveToken(s'.Tok(t0)) && !LiveToken(s.Tok(t0)) {
      var f :| f in s'.Tok(t0) && s'.Tok(t0)[f] == Live;
      assert f == e && agenda[0].status == Live;
    }
  }

  /** Once its table is full the wave owes a node nothing more. */
  lemma FullOwesNothing(g: Graph, s: State, agenda: seq<Item>, finish: map<string, nat>, n: string, t0: string)
    requires Wave(g, s, agenda, finish, n, t0) && agenda != [] && agenda[0].edge < |g.edges|
    requires Saturated(g, PutToken(g, s, agenda[0]), g.edges[agenda[0].edge].target)
    ensures var s', t := PutToken(g, s, agenda[0]), g.edges[agenda[0].edge].target;
            && (forall e: nat :: g.Gates(e, t) <==> e in s'.Tok(t))
            && !Bound(g, agenda[1..], t)
  {
    hide Static, TablesWave;
    PutWave(g, s, agenda, finish, n, t0);
    hide OnAgenda;
    var s', t := PutToken(g, s, agenda[0]), g.edges[agenda[0].edge].target;
    BarrierIsFullness(g, s'.Tok(t), t);
    if Bound(g, agenda[1..], t) {
      var e := BoundByGate(g, s, agenda, finish, n, t0, t);
      assert false;
    }
  }

  lemma BoundByGate(g: Graph, s: State, agenda: seq<Item>, finish: map<string, nat>, n: string, t0: string, t: string)
    returns (e: nat)
    requires AgendaWave(g, s, agenda, finish, n, t0) && agenda != [] && Bound(g, agenda[1..], t)
    ensures g.Gates(e, t) && OnAgenda(agenda[1..], e)
  {
    var i :| 0 <= i < |agenda[1..]| && agenda[1..][i].edge < |g.edges| && g.edges[agenda[1..][i].edge].target == t;
    assert agenda[1..][i] == agenda[i + 1];
    assert Sourced(g, s, finish, n, agenda[i + 1].edge);
    e := agenda[1..][i].edge;
  }

  /** Clearing the full table leaves the rest of the wave as it was. */
  lemma WaveCleared(g: Graph, s: State, agenda: seq<Item>, finish: map<string, nat>, n: string, t0: string, s': State)
    requires Wave(g, s, agenda, finish, n, t0) && agenda != [] && agenda[0].edge < |g.edges|
    requires Saturated(g, PutToken(g, s, agenda[0]), g.edges[agenda[0].edge].target)
    requires s.dead <= s'.dead && s'.tokens == PutToken(g, s, agenda[0]).tokens[g.edges[agenda[0].edge].target := map[]]
    ensures Wave(g, s', agenda[1..], finish, n, t0)
    ensures Awaited(s', agenda[1..], t0)
            <==> Awaited(s, agenda, t0) && !LiveToken(PutToken(g, s, agenda[0]).Tok(g.edges[agenda[0].edge].target))
  {
    hide Static, TablesWave, TableWave, AgendaWave, OnAgenda, Bound, LiveItem, LiveToken;
    PutWave(g, s, agenda, finish, n, t0);
    HeadOfWave(g, s, agenda, finish, n, t0);
    FullOwesNothing(g, s, agenda, finish, n, t0);
    AgendaWaveTail(g, s, agenda, finish, n, t0, s');
    HeadLive(g, s, agenda, finish, n, t0);
    AwaitedAfterPut(g, s, agenda, t0);
    var put, t := PutToken(g, s, agenda[0]), g.edges[agenda[0].edge].target;
    LiveIsBound(g, s', agenda[1..], finish, n, t0);
    LiveIsAtT0(g, put.Tok(t), n, t0, t);
    EmptyTable(g, s', agenda[1..], finish, n, t0, t);
    assert LiveToken(s'.Tok(t0)) <==> t != t0 && LiveToken(put.Tok(t0)) by { NoLiveInEmpty(); }
    OtherTables(g, s, agenda[1..], finish, n, t0, t, s');
  }

  lemma NoLiveInEmpty()
    ensures !LiveToken(map[])
  {
  }

  lemma LiveIsAtT0(g: Graph, tok: map<nat, Status>, n: string, t0: string, t: string)
    requires forall e :: e in tok && tok[e] == Live ==> t == t0
    ensures LiveToken(tok) ==> t == t0
  {
  }

  lemma EmptyTable(g: Graph, s: State, agenda: seq<Item>, finish: map<string, nat>, n: string, t0: string, t: string)
    requires s.Tok(t) == map[] && !Bound(g, agenda, t)
    ensures TableWave(g, s, agenda, finish, n, t0, t)
  {
  }

  lemma LiveIsBound(g: Graph, s: State, agenda: seq<Item>, finish: map<string, nat>, n: string, t0: string)
    requires AgendaWave(g, s, agenda, finish, n, t0)
    ensures LiveItem(agenda) ==> Bound(g, agenda, t0)
  {
    if LiveItem(agenda) {
      var i :| 0 <= i < |agenda| && agenda[i].status == Live;
      assert Sourced(g, s, finish, n, agenda[i].edge) && g.edges[agenda[i].edge].target == t0;
    }
  }

  /** The deliveries of a newly pruned node join the wave. */
  lemma WaveGrows(g: Graph, s: State, agenda: seq<Item>, finish: map<string, nat>, n: string, t0: string, t: string)
    requires Wave(g, s, agenda, finish, n, t0)
    requires t !in s.dead && t != n && t in finish && n in finish && finish[t] <= finish[n]
    ensures var s', owed := s.(dead := s.dead + {t}), Items(g.ForwardOut(t), Dead);
            && Wave(g, s', owed + agenda, finish, n, t0)
            && (Awaited(s', owed + agenda, t0) <==> Awaited(s, agenda, t0))
  {
    hide Static, AgendaWave, TablesWave, LiveItem, LiveToken, Items, Graph.ForwardOut;
    OwedAgenda(g, s, agenda, finish, n, t0, t);
    OwedTables(g, s, agenda, finish, n, t0, t);
    NoneLiveInFront(Items(g.ForwardOut(t), Dead), agenda);
  }

  lemma NoneLiveInFront(owed: seq<Item>, agenda: seq<Item>)
    requires forall i :: 0 <= i < |owed| ==> owed[i].status == Dead
    ensures LiveItem(owed + agenda) <==> LiveItem(agenda)
  {
    var all := owed + agenda;
    if LiveItem(agenda) {
      var i :| 0 <= i < |agenda| && agenda[i].status == Live;
      assert all[|owed| + i] == agenda[i];
    }
    if LiveItem(all) {
      var i :| 0 <= i < |all| && all[i].status == Live;
      assert i >= |owed| && agenda[i - |owed|] == all[i];
    }
  }

  lemma OwedAgenda(g: Graph, s: State, agenda: seq<Item>, finish: map<string, nat>, n: string, t0: string, t: string)
    requires AgendaWave(g, s, agenda, finish, n, t0)
    requires t !in s.dead && t != n && t in finish && n in finish && finish[t] <= finish[n]
    ensures AgendaWave(g, s.(dead := s.dead + {t}), Items(g.ForwardOut(t), Dead) + agenda, finish, n, t0)
  {
    var out := g.ForwardOut(t);
    var owed := Items(out, Dead);
    var all, s' := owed + agenda, s.(dead := s.dead + {t});
    forall i | 0 <= i < |all|
      ensures Sourced(g, s', finish, n, all[i].edge)
      ensures i < |owed| ==> g.edges[all[i].edge].source == t && all[i].status == Dead
      ensures i >= |owed| ==> all[i] == agenda[i - |owed|] && g.edges[all[i].edge].source != t
    {
      if i < |owed| {
        assert out[i] in out;
      } else {
        assert Sourced(g, s, finish, n, agenda[i - |owed|].edge);
      }
    }
    forall i, j | 0 <= i < j < |all| ensures all[i].edge != all[j].edge {
      if j < |owed| {
        assert out[i] < out[j];
      }
    }
  }

  lemma OwedTables(g: Graph, s: State, agenda: seq<Item>, finish: map<string, nat>, n: string, t0: string, t: string)
    requires Wave(g, s, agenda, finish, n, t0)
    requires t !in s.dead && t != n
    ensures TablesWave(g, s.(dead := s.dead + {t}), Items(g.ForwardOut(t), Dead) + agenda, finish, n, t0)
  {
    var out := g.ForwardOut(t);
    var all, s' := Items(out, Dead) + agenda, s.(dead := s.dead + {t});
    hide SearchResult, AgendaWave, TableWave, OnAgenda, Bound;
    forall u ensures TableWave(g, s', all, finish, n, t0, u) {
      assert TableWave(g, s, agenda, finish, n, t0, u);
      OwedTable(g, s, agenda, finish, n, t0, t, u);
    }
  }

  lemma OnAgendaSum(out: seq<nat>, agenda: seq<Item>, e: nat)
    ensures OnAgenda(Items(out, Dead) + agenda, e) <==> e in out || OnAgenda(agenda, e)
  {
    var owed := Items(out, Dead);
    var all := owed + agenda;
    if e in out {
      var i :| 0 <= i < |out| && out[i] == e;
      assert all[i].edge == e;
    }
    if OnAgenda(agenda, e) {
      var i :| 0 <= i < |agenda| && agenda[i].edge == e;
      assert all[|owed| + i].edge == e;
    }
    if OnAgenda(all, e) && e !in out {
      var i :| 0 <= i < |all| && all[i].edge == e;
      assert i >= |owed| && agenda[i - |owed|].edge == e;
    }
  }

  lemma BoundSum(g: Graph, out: seq<nat>, agenda: seq<Item>, u: string)
    ensures Bound(g, Items(out, Dead) + agenda, u) <==>
            (exists e: nat :: e in out && e < |g.edges| && g.edges[e].target == u) || Bound(g, agenda, u)
  {
    var owed := Items(out, Dead);
    var all := owed + agenda;
    if e: nat :| e in out && e < |g.edges| && g.edges[e].target == u {
      var i :| 0 <= i < |out| && out[i] == e;
      assert all[i].edge == e;
    }
    if Bound(g, agenda, u) {
      var i :| 0 <= i < |agenda| && agenda[i].edge < |g.edges| && g.edges[agenda[i].edge].target == u;
      assert all[|owed| + i] == agenda[i];
    }
    if Bound(g, all, u) {
      var i :| 0 <= i < |all| && all[i].edge < |g.edges| && g.edges[all[i].edge].target == u;
      if i < |owed| {
        assert all[i].edge == out[i] && out[i] in out;
      } else {
        assert agenda[i - |owed|] == all[i];
      }
    }
  }

  /** One table after a node was pruned: its own targets are owed every in-edge, the others see no change. */
  lemma OwedTable(g: Graph, s: State, agenda: seq<Item>, finish: map<string, nat>, n: string, t0: string, t: string,
                  u: string)
    requires SingleSources(g) && TableWave(g, s, agenda, finish, n, t0, u) && t !in s.dead && t != n
    ensures TableWave(g, s.(dead := s.dead + {t}), Items(g.ForwardOut(t), Dead) + agenda, finish, n, t0, u)
  {
    hide OnAgenda, Bound, Items, Graph.ForwardOut, Sourced;
    var out, s' := g.ForwardOut(t), s.(dead := s.dead + {t});
    var all := Items(out, Dead) + agenda;
    forall e: nat ensures OnAgenda(all, e) <==> e in out || OnAgenda(agenda, e) {
      OnAgendaSum(out, agenda, e);
    }
    BoundSum(g, out, agenda, u);
    PrunedSources(g, s, s.Tok(u), finish, n, t, u);
  }

  lemma PrunedSources(g: Graph, s: State, tok: map<nat, Status>, finish: map<string, nat>, n: string, t: string,
                      u: string)
    requires SingleSources(g) && t !in s.dead && t != n && forall e :: e in tok ==> Sourced(g, s, finish, n, e)
    ensures forall e :: e in tok ==> Sourced(g, s.(dead := s.dead + {t}), finish, n, e) && e !in g.ForwardOut(t)
    ensures (exists e: nat :: e in g.ForwardOut(t) && e < |g.edges| && g.edges[e].target == u)
            ==> forall f: nat :: g.Gates(f, u) ==> f in g.ForwardOut(t)
  {
    if e: nat :| e in g.ForwardOut(t) && e < |g.edges| && g.edges[e].target == u {
      forall f: nat | g.Gates(f, u) ensures f in g.ForwardOut(t) {
        assert g.edges[f].source == g.edges[e].source;
      }
    }
  }

  /** Several LIVE tokens from one source merge to that source's output. */
  lemma {:induction false} MergeOfOne(g: Graph, s: State, n: string, es: seq<nat>)
    requires InRange(g, es) && es != [] && forall i :: 0 <= i < |es| ==> g.edges[es[i]].source == n
    ensures Merge(g, s, es) == s.Output(n)
  {
    var init := es[..|es| - 1];
    if init == [] {
      assert Merge(g, s, init) == map[];
    } else {
      MergeOfOne(g, s, n, init);
    }
    assert g.edges[es[|es| - 1]].source == n;
    assert Merge(g, s, es) == Merge(g, s, init) + s.Output(n);
  }

  /** One delivery of the wave. */
  lemma StepWave(g: Graph, s: State, agenda: seq<Item>, finish: map<string, nat>, n: string, t0: string)
    requires Wave(g, s, agenda, finish, n, t0) && agenda != [] && agenda[0].edge < |g.edges|
    ensures var (s1, ready, owed) := Step(g, s, agenda[0]);
            && Wave(g, s1, owed + agenda[1..], finish, n, t0)
            && (if ready == [] then Awaited(s1, owed + agenda[1..], t0) <==> Awaited(s, agenda, t0)
                else ready == [ReadyNode(t0, s.Output(n))] && Awaited(s, agenda, t0)
                     && !Awaited(s1, owed + agenda[1..], t0))
  {
    hide Wave, Awaited, Merge, LiveSources, PutToken, Graph.ForwardIn, Graph.ForwardOut, Items, LiveToken, State.Tok;
    HeadFacts(g, s, agenda, finish, n, t0);
    var (s1, ready, owed) := Step(g, s, agenda[0]);
    var put, t := PutToken(g, s, agenda[0]), g.edges[agenda[0].edge].target;
    assert [] + agenda[1..] == agenda[1..];
    if !Saturated(g, put, t) {
      WaveWaits(g, s, agenda, finish, n, t0);
    } else if LiveSources(g, put.Tok(t), t) != [] {
      var cleared := put.(tokens := put.tokens[t := map[]]);
      LiveFires(g, s, agenda, finish, n, t0);
      WaveCleared(g, s, agenda, finish, n, t0, cleared);
    } else {
      var cleared := put.(tokens := put.tokens[t := map[]]);
      NothingLive(g, put.Tok(t), t);
      WaveCleared(g, s, agenda, finish, n, t0, cleared);
      if t !in s.dead {
        WaveGrows(g, cleared, agenda[1..], finish, n, t0, t);
      }
    }
  }

  lemma HeadFacts(g: Graph, s: State, agenda: seq<Item>, finish: map<string, nat>, n: string, t0: string)
    requires Wave(g, s, agenda, finish, n, t0) && agenda != [] && agenda[0].edge < |g.edges|
    ensures var e, put := agenda[0].edge, PutToken(g, s, agenda[0]);
            var t := g.edges[e].target;
            && e !in g.back && t != n && t in finish && n in finish && finish[t] <= finish[n]
            && put.dead == s.dead && put.outputs == s.outputs
            && (Saturated(g, put, t) ==> forall f: nat :: g.Gates(f, t) <==> f in put.Tok(t))
  {
    HeadOfWave(g, s, agenda, finish, n, t0);
    TargetFinishesEarlier(g, s, finish, n, agenda[0].edge);
    if Saturated(g, PutToken(g, s, agenda[0]), g.edges[agenda[0].edge].target) {
      FullOwesNothing(g, s, agenda, finish, n, t0);
    }
  }

  lemma NothingLive(g: Graph, tok: map<nat, Status>, t: string)
    requires LiveSources(g, tok, t) == [] && forall e: nat :: g.Gates(e, t) <==> e in tok
    ensures !LiveToken(tok)
  {
    forall e | e in tok ensures tok[e] != Live {
      assert e !in LiveSources(g, tok, t);
    }
  }

  /** A full table with a LIVE token is t0's, and what fires is t0 on the output of n. */
  lemma LiveFires(g: Graph, s: State, agenda: seq<Item>, finish: map<string, nat>, n: string, t0: string)
    requires Wave(g, s, agenda, finish, n, t0) && agenda != [] && agenda[0].edge < |g.edges|
    requires var put, t := PutToken(g, s, agenda[0]), g.edges[agenda[0].edge].target;
             Saturated(g, put, t) && LiveSources(g, put.Tok(t), t) != []
    ensures var put, t := PutToken(g, s, agenda[0]), g.edges[agenda[0].edge].target;
            && t == t0 && LiveToken(put.Tok(t)) && Awaited(s, agenda, t0)
            && Merge(g, put.(tokens := put.tokens[t := map[]]), LiveSources(g, put.Tok(t), t)) == s.Output(n)
  {
    hide Static, TablesWave, AgendaWave, OnAgenda, Bound, TableWave;
    PutWave(g, s, agenda, finish, n, t0);
    HeadOfWave(g, s, agenda, finish, n, t0);
    HeadLive(g, s, agenda, finish, n, t0);
    AwaitedAfterPut(g, s, agenda, t0);
    var put, t := PutToken(g, s, agenda[0]), g.edges[agenda[0].edge].target;
    var live, cleared := LiveSources(g, put.Tok(t), t), put.(tokens := put.tokens[t := map[]]);
    forall i | 0 <= i < |live| ensures live[i] in put.Tok(t) && put.Tok(t)[live[i]] == Live
        && g.edges[live[i]].source == n {
      assert live[i] in live;
    }
    assert LiveToken(put.Tok(t)) by { assert put.Tok(t)[live[0]] == Live; }
    MergeOfOne(g, cleared, n, live);
  }

  lemma WaveEmpty(g: Graph, s: State, finish: map<string, nat>, n: string, t0: string)
    requires Wave(g, s, [], finish, n, t0)
    ensures AllEmpty(s) && !Awaited(s, [], t0)
  {
    hide Static;
    forall t ensures s.Tok(t) == map[] {
      assert TableWave(g, s, [], finish, n, t0, t);
    }
  }

  /** A wave leaves no token behind and runs t0 exactly when it was awaited. */
  lemma {:induction false} ExecWave(g: Graph, s: State, agenda: seq<Item>, finish: map<string, nat>, n: string,
                                    t0: string)
    requires Wave(g, s, agenda, finish, n, t0) && ValidItems(g, agenda)
    ensures AllEmpty(Exec(g, s, agenda).0)
    ensures Exec(g, s, agenda).1 == if Awaited(s, agenda, t0) then [ReadyNode(t0, s.Output(n))] else []
    decreases g.Targets() - s.dead, |agenda|
  {
    hide Wave, Awaited, Step, AllEmpty;
    if agenda == [] {
      WaveEmpty(g, s, finish, n, t0);
    } else {
      var (s1, ready, owed) := Step(g, s, agenda[0]);
      StepWave(g, s, agenda, finish, n, t0);
      ExecWave(g, s1, owed + agenda[1..], finish, n, t0);
      ExecUnfold(g, s, agenda);
    }
  }

  /** Leaving n by the branch is unambiguous: one target, and a back-edge is taken alone. */
  ghost predicate SameExit(g: Graph, n: string, branch: Option<int>) {
    forall e: nat, f: nat :: g.Takes(e, n, branch) && g.Takes(f, n, branch) && e != f
        ==> g.edges[e].target == g.edges[f].target && e !in g.back
  }

  /** Where the scheduler should go from n: to the target of its first selected edge. */
  function Expected(g: Graph, n: string, branch: Option<int>, data: Payload): seq<ReadyNode> {
    var taken := g.Selected(n, branch);
    if taken == [] then [] else
      assert taken[0] in taken;
      [ReadyNode(g.edges[taken[0]].target, data)]
  }

  /** The deliveries of a completion, with empty tables, are a wave. */
  lemma CompletionIsWave(g: Graph, s: State, finish: map<string, nat>, n: string, branch: Option<int>, t0: string)
    requires Static(g, finish) && AllEmpty(s) && n in finish
    requires forall e: nat :: g.Takes(e, n, branch) ==> g.edges[e].target == t0 && e !in g.back
    ensures Wave(g, s, CompleteAgenda(g, n, branch), finish, n, t0)
    ensures Awaited(s, CompleteAgenda(g, n, branch), t0) <==> g.Selected(n, branch) != []
  {
    hide SearchResult, AgendaWave, TablesWave, CompleteAgenda;
    assert !g.LoopsBack(n, branch);
    CompletionAgenda(g, s, finish, n, branch, t0);
    CompletionTables(g, s, finish, n, branch, t0);
  }

  lemma CompletionAgenda(g: Graph, s: State, finish: map<string, nat>, n: string, branch: Option<int>, t0: string)
    requires n in finish && AllEmpty(s)
    requires forall e: nat :: g.Takes(e, n, branch) ==> g.edges[e].target == t0 && e !in g.back
    ensures AgendaWave(g, s, CompleteAgenda(g, n, branch), finish, n, t0)
    ensures Awaited(s, CompleteAgenda(g, n, branch), t0) <==> g.Selected(n, branch) != []
  {
    hide CompleteAgenda, Graph.Selected, Graph.Siblings;
    var agenda := CompleteAgenda(g, n, branch);
    AgendaByPosition(g, n, branch);
    assert s.Tok(t0) == map[];
    if g.Selected(n, branch) != [] {
      assert agenda[0].status == Live;
    }
  }

  lemma CompletionTables(g: Graph, s: State, finish: map<string, nat>, n: string, branch: Option<int>, t0: string)
    requires SingleSources(g) && AllEmpty(s) && !g.LoopsBack(n, branch)
    ensures TablesWave(g, s, CompleteAgenda(g, n, branch), finish, n, t0)
  {
    hide CompleteAgenda, Graph.LoopsBack, OnAgenda, Bound, Sourced;
    var agenda := CompleteAgenda(g, n, branch);
    AgendaByPosition(g, n, branch);
    forall t ensures TableWave(g, s, agenda, finish, n, t0, t) {
      if Bound(g, agenda, t) {
        AllFromOne(g, n, agenda, t);
        forall e: nat | g.Gates(e, t) ensures OnAgenda(agenda, e) {
          AgendaCovers(g, n, branch, e);
        }
      }
    }
  }

  lemma AllFromOne(g: Graph, n: string, agenda: seq<Item>, t: string)
    requires SingleSources(g) && Bound(g, agenda, t) && forall i :: 0 <= i < |agenda| ==> g.Leaves(agenda[i].edge, n)
    ensures forall e: nat :: g.Gates(e, t) ==> g.Leaves(e, n)
  {
  }

  /** A back-edge taken alone re-activates its target and touches no table. */
  lemma LoopAgrees(g: Graph, s: State, n: string, branch: Option<int>, e: nat)
    requires g.Takes(e, n, branch) && e in g.back && forall f: nat :: g.Takes(f, n, branch) ==> f == e
    ensures g.Selected(n, branch) == [e] && CompleteAgenda(g, n, branch) == [Item(e, Live)]
    ensures Exec(g, s, CompleteAgenda(g, n, branch)) == (s, [ReadyNode(g.edges[e].target, s.Output(n))])
  {
    hide Exec;
    var taken := g.Selected(n, branch);
    assert e in taken;
    forall i | 0 <= i < |taken| ensures taken[i] == e {
      assert taken[i] in taken;
    }
    if |taken| > 1 {
      DistinctPositions(taken, 0, 1);
      assert false;
    }
    assert taken == [e];
    assert g.LoopsBack(n, branch);
    assert g.Siblings(n, branch) == [];
    ReactivateStep(g, s, Item(e, Live));
  }

  /** One half: an unambiguous exit readies exactly the expected node and leaves no token. */
  lemma SameExitAgrees(g: Graph, s: State, finish: map<string, nat>, n: string, data: Payload, branch: Option<int>)
    requires Static(g, finish) && AllEmpty(s) && n in finish && SameExit(g, n, branch)
    ensures var (s', result) := Complete(g, s, n, data, branch);
            AllEmpty(s') && result.ready == Expected(g, n, branch, data)
  {
    hide Static, Exec, CompleteAgenda, Graph.Selected, Wave, Awaited, AllEmpty, SameExit;
    var taken, s1 := g.Selected(n, branch), s.(outputs := s.outputs[n := data]);
    SelectedExit(g, n, branch);
    OutputsLeaveTables(s, n, data);
    if taken != [] && taken[0] in g.back {
      LoopAgrees(g, s1, n, branch, taken[0]);
    } else {
      var t0 := if taken == [] then n else g.edges[taken[0]].target;
      CompletionIsWave(g, s1, finish, n, branch, t0);
      ExecWave(g, s1, CompleteAgenda(g, n, branch), finish, n, t0);
    }
  }

  lemma OutputsLeaveTables(s: State, n: string, data: Payload)
    requires AllEmpty(s)
    ensures AllEmpty(s.(outputs := s.outputs[n := data]))
  {
    var s1 := s.(outputs := s.outputs[n := data]);
    assert forall t :: s1.Tok(t) == s.Tok(t);
  }

  lemma SelectedExit(g: Graph, n: string, branch: Option<int>)
    requires SameExit(g, n, branch)
    ensures var taken := g.Selected(n, branch);
            && (taken == [] ==> forall e: nat :: !g.Takes(e, n, branch))
            && (taken != [] ==> g.Takes(taken[0], n, branch))
            && (taken != [] && taken[0] in g.back ==> forall e: nat :: g.Takes(e, n, branch) ==> e == taken[0])
            && (taken != [] && taken[0] !in g.back ==>
                  forall e: nat :: g.Takes(e, n, branch)
                      ==> g.edges[e].target == g.edges[taken[0]].target && e !in g.back)
  {
    var taken := g.Selected(n, branch);
    assert forall e: nat :: g.Takes(e, n, branch) <==> e in taken;
    assert taken != [] ==> taken[0] in taken;
  }

  /** A back-edge on the agenda makes its target ready. */
  lemma BackItemReadies(g: Graph, s: State, agenda: seq<Item>, i: nat)
    requires ValidItems(g, agenda) && i < |agenda| && agenda[i].edge in g.back
    ensures var before, e := Exec(g, s, agenda[..i]), g.edges[agenda[i].edge];
            Exec(g, s, agenda).1
            == before.1 + ([ReadyNode(e.target, before.0.Output(e.source))] + Exec(g, before.0, agenda[i + 1..]).1)
  {
    hide Exec;
    var head, tail := agenda[..i], agenda[i + 1..];
    var before := Exec(g, s, head);
    assert agenda == head + ([agenda[i]] + tail);
    ExecAppend(g, s, head, [agenda[i]] + tail);
    ExecAppend(g, before.0, [agenda[i]], tail);
    ReactivateStep(g, before.0, agenda[i]);
  }

  /** Two back-edges in one exit run their targets twice, where the sequential engine runs one once. */
  lemma SharedLoopRunsTwice(g: Graph, s: State, n: string, data: Payload, branch: Option<int>, e: nat, f: nat)
    requires e != f && g.Takes(e, n, branch) && g.Takes(f, n, branch) && e in g.back && f in g.back
    ensures |Complete(g, s, n, data, branch).1.ready| >= 2 > |Expected(g, n, branch, data)|
  {
    hide Exec, CompleteAgenda;
    var s1, agenda := s.(outputs := s.outputs[n := data]), CompleteAgenda(g, n, branch);
    assert Item(e, Live) in agenda && Item(f, Live) in agenda;
    var i :| 0 <= i < |agenda| && agenda[i] == Item(e, Live);
    var j :| 0 <= j < |agenda| && agenda[j] == Item(f, Live);
    var lo, hi := if i < j then i else j, if i < j then j else i;
    BackItemReadies(g, s1, agenda, lo);
    var tail := agenda[lo + 1..];
    assert tail[hi - lo - 1] == agenda[hi];
    BackItemReadies(g, Exec(g, s1, agenda[..lo]).0, tail, hi - lo - 1);
  }

  ghost predicate Readied(ready: seq<ReadyNode>, t: string) {
    exists i :: 0 <= i < |ready| && ready[i].nodeId == t
  }

  /** Forward deliveries come from n and from nodes that finished before it; the edge e goes out LIVE only. */
  ghost predicate Falls(g: Graph, finish: map<string, nat>, n: string, agenda: seq<Item>, e: nat) {
    forall i :: 0 <= i < |agenda| ==>
      && agenda[i].edge < |g.edges| && (agenda[i].edge == e ==> agenda[i].status == Live)
      && (agenda[i].edge !in g.back ==>
            var u := g.edges[agenda[i].edge].source; u in finish && n in finish && finish[u] <= finish[n])
  }

  /** The LIVE token of e is on its way or waits at the target. */
  ghost predicate Carried(g: Graph, s: State, agenda: seq<Item>, e: nat) {
    e < |g.edges| && (Item(e, Live) in agenda || (e in s.Tok(g.edges[e].target) && s.Tok(g.edges[e].target)[e] == Live))
  }

  /** What a dying node owes are DEAD tokens on its own out-edges. */
  lemma FireOwes(g: Graph, s: State, u: string)
    ensures var owed := Fire(g, s, u).2;
            forall i :: 0 <= i < |owed| ==> owed[i].edge < |g.edges| && g.edges[owed[i].edge].source == u
  {
    hide Graph.ForwardIn, Graph.ForwardOut, Merge, LiveSources;
    var owed, out := Fire(g, s, u).2, g.ForwardOut(u);
    if owed != [] {
      forall i | 0 <= i < |owed| ensures owed[i] == Item(out[i], Dead) && g.edges[out[i]].source == u {
        assert out[i] in out;
      }
    }
  }

  lemma FallsOn(g: Graph, s: State, finish: map<string, nat>, n: string, agenda: seq<Item>, e: nat)
    requires NoSelfEdges(g.edges) && SearchResult(g.start, g.edges, g.back, finish)
    requires agenda != [] && Falls(g, finish, n, agenda, e) && e < |g.edges| && g.edges[e].source == n
    ensures Falls(g, finish, n, Step(g, s, agenda[0]).2 + agenda[1..], e)
  {
    hide Reaches, Fire;
    var head := agenda[0].edge;
    var owed := Step(g, s, agenda[0]).2;
    var all := owed + agenda[1..];
    if head !in g.back {
      FireOwes(g, PutToken(g, s, agenda[0]), g.edges[head].target);
      assert finish[g.edges[head].target] < finish[n];
    }
    forall i | 0 <= i < |all| ensures all[i] == if i < |owed| then owed[i] else agenda[i - |owed| + 1] {
    }
  }

  /** A node reacting keeps the LIVE tokens of the others, and its own unless it runs. */
  lemma ReactionKeeps(g: Graph, s: State, u: string, t: string, e: nat)
    requires g.Gates(e, t) && e in s.Tok(t) && s.Tok(t)[e] == Live
    ensures var (s1, ready, owed) := Fire(g, s, u);
            Readied(ready, t) || (e in s1.Tok(t) && s1.Tok(t)[e] == Live)
  {
    hide Graph.ForwardIn, Graph.ForwardOut, Merge, Items;
    var (s1, ready, owed) := Fire(g, s, u);
    if u == t {
      assert e in LiveSources(g, s.Tok(t), t);
      assert ready != [] ==> ready[0].nodeId == t;
    }
  }

  lemma CarriedOn(g: Graph, s: State, finish: map<string, nat>, n: string, agenda: seq<Item>, e: nat)
    requires agenda != [] && Falls(g, finish, n, agenda, e) && Carried(g, s, agenda, e) && e !in g.back
    ensures var (s1, ready, owed) := Step(g, s, agenda[0]);
            Readied(ready, g.edges[e].target) || Carried(g, s1, owed + agenda[1..], e)
  {
    hide Graph.ForwardIn, Graph.ForwardOut, Merge, Fire, Readied;
    var (s1, ready, owed) := Step(g, s, agenda[0]);
    if Item(e, Live) in agenda && agenda[0] != Item(e, Live) {
      var i :| 0 <= i < |agenda| && agenda[i] == Item(e, Live);
      assert (owed + agenda[1..])[|owed| + i - 1] == Item(e, Live);
    } else if agenda[0].edge !in g.back {
      ReactionKeeps(g, PutToken(g, s, agenda[0]), g.edges[agenda[0].edge].target, g.edges[e].target, e);
    }
  }

  /** A LIVE token that sets out runs its target or is left waiting there. */
  lemma {:induction false} LiveShows(g: Graph, s: State, finish: map<string, nat>, n: string, agenda: seq<Item>, e: nat)
    requires NoSelfEdges(g.edges) && SearchResult(g.start, g.edges, g.back, finish) && ValidItems(g, agenda)
    requires Falls(g, finish, n, agenda, e) && Carried(g, s, agenda, e) && e !in g.back && g.edges[e].source == n
    ensures var (s', ready) := Exec(g, s, agenda);
            Readied(ready, g.edges[e].target) || s'.Tok(g.edges[e].target) != map[]
    decreases g.Targets() - s.dead, |agenda|
  {
    hide SearchResult, Falls, Step;
    if agenda != [] {
      var (s1, ready, owed) := Step(g, s, agenda[0]);
      FallsOn(g, s, finish, n, agenda, e);
      CarriedOn(g, s, finish, n, agenda, e);
      ExecUnfold(g, s, agenda);
      var more := Exec(g, s1, owed + agenda[1..]).1;
      ReadiedSum(ready, more, g.edges[e].target);
      if !Readied(ready, g.edges[e].target) {
        LiveShows(g, s1, finish, n, owed + agenda[1..], e);
      }
    }
  }

  lemma ReadiedSum(a: seq<ReadyNode>, b: seq<ReadyNode>, t: string)
    ensures Readied(a, t) || Readied(b, t) ==> Readied(a + b, t)
  {
    if Readied(a, t) {
      var i :| 0 <= i < |a| && a[i].nodeId == t;
      assert (a + b)[i] == a[i];
    } else if Readied(b, t) {
      var i :| 0 <= i < |b| && b[i].nodeId == t;
      assert (a + b)[|a| + i] == b[i];
    }
  }

  /** When no token is left, every edge taken has made its target ready. */
  lemma TakenShows(g: Graph, s: State, finish: map<string, nat>, n: string, data: Payload, branch: Option<int>, e: nat)
    requires NoSelfEdges(g.edges) && SearchResult(g.start, g.edges, g.back, finish) && n in finish
    requires g.Takes(e, n, branch) && AllEmpty(Complete(g, s, n, data, branch).0)
    ensures Readied(Complete(g, s, n, data, branch).1.ready, g.edges[e].target)
  {
    hide Exec, CompleteAgenda, SearchResult, Graph.Selected, Graph.Siblings;
    var s1, agenda := s.(outputs := s.outputs[n := data]), CompleteAgenda(g, n, branch);
    AgendaByPosition(g, n, branch);
    assert Item(e, Live) in agenda;
    if e in g.back {
      var i :| 0 <= i < |agenda| && agenda[i] == Item(e, Live);
      var before := Exec(g, s1, agenda[..i]);
      BackItemReadies(g, s1, agenda, i);
      assert Exec(g, s1, agenda).1[|before.1|].nodeId == g.edges[e].target;
    } else {
      LiveShows(g, s1, finish, n, agenda, e);
    }
  }

  /** The converse: a call that readies the expected node and leaves no token has left by one exit. */
  lemma AgreementNeedsSameExit(g: Graph, s: State, finish: map<string, nat>, n: string, data: Payload,
                               branch: Option<int>)
    requires NoSelfEdges(g.edges) && SearchResult(g.start, g.edges, g.back, finish) && n in finish
    requires var (s', result) := Complete(g, s, n, data, branch);
             AllEmpty(s') && result.ready == Expected(g, n, branch, data)
    ensures SameExit(g, n, branch)
  {
    hide Complete, Graph.Selected, Reaches, AllEmpty;
    var ready := Complete(g, s, n, data, branch).1.ready;
    forall e: nat, f: nat | g.Takes(e, n, branch) && g.Takes(f, n, branch) && e != f
      ensures g.edges[e].target == g.edges[f].target && e !in g.back
    {
      TakenShows(g, s, finish, n, data, branch, e);
      TakenShows(g, s, finish, n, data, branch, f);
      assert |ready| <= 1;
      if e in g.back && f in g.back {
        SharedLoopRunsTwice(g, s, n, data, branch, e, f);
      }
    }
  }

  /** One call readies exactly the expected node and leaves no token anywhere if and only if the exit is unambiguous. */
  lemma CompleteAgrees(g: Graph, s: State, finish: map<string, nat>, n: string, data: Payload, branch: Option<int>)
    requires Static(g, finish) && AllEmpty(s) && n in finish
    ensures var (s', result) := Complete(g, s, n, data, branch);
            AllEmpty(s') && result.ready == Expected(g, n, branch, data) <==> SameExit(g, n, branch)
  {
    hide SearchResult, NoSelfEdges, SingleSources, Complete, AllEmpty, SameExit, Expected;
    if SameExit(g, n, branch) {
      SameExitAgrees(g, s, finish, n, data, branch);
    }
    var (s', result) := Complete(g, s, n, data, branch);
    if AllEmpty(s') && result.ready == Expected(g, n, branch, data) {
      AgreementNeedsSameExit(g, s, finish, n, data, branch);
    }
  }

  /** The sequential engine follows the first edge the scheduler would select. */
  lemma NextIsFirstSelected(nodes: set<string>, edges: seq<Edge>, g: Graph, n: string, branch: Option<int>)
    requires g.edges == Scheduler.TraversedEdges(nodes, edges)
    ensures var taken := g.Selected(n, branch);
            FindNextNode(edges, nodes, n, branch) == if taken == [] then None else Some(g.edges[taken[0]].target)
  {
    hide FindNextNode, Graph.Selected, Follows;
    var taken := g.Selected(n, branch);
    NextAmongTraversed(nodes, edges, n, branch);
    forall e: nat | e < |g.edges| ensures Follows(nodes, g.edges[e], n, branch) <==> e in taken {
      TakesIsFollows(nodes, edges, g, n, branch, e);
    }
    if taken != [] {
      assert taken[0] in taken;
      forall j: nat | j < taken[0] ensures j !in taken {
      }
      FirstIsNext(g.edges, nodes, n, branch, taken[0]);
    }
  }

  lemma TakesIsFollows(nodes: set<string>, edges: seq<Edge>, g: Graph, n: string, branch: Option<int>, e: nat)
    requires g.edges == Scheduler.TraversedEdges(nodes, edges) && e < |g.edges|
    ensures Follows(nodes, g.edges[e], n, branch) <==> g.Takes(e, n, branch)
  {
    hide Scheduler.TraversedEdges;
    assert g.edges[e] in g.edges;
  }

  lemma {:induction false} NextAmongTraversed(nodes: set<string>, edges: seq<Edge>, n: string, branch: Option<int>)
    ensures FindNextNode(edges, nodes, n, branch)
            == FindNextNode(Scheduler.TraversedEdges(nodes, edges), nodes, n, branch)
  {
    if edges != [] {
      NextAmongTraversed(nodes, edges[1..], n, branch);
      var rest := Scheduler.TraversedEdges(nodes, edges[1..]);
      assert ([edges[0]] + rest)[1..] == rest;
    }
  }

  /** The parallel engine is not needed, and every traversed edge comes from an existing node. */
  ghost predicate Sequential(nodes: Nodes, edges: seq<Edge>, g: Graph, finish: map<string, nat>) {
    && g.edges == Scheduler.TraversedEdges(nodes.Keys, edges)
    && SearchResult(g.start, g.edges, g.back, finish)
    && (forall e :: 0 <= e < |g.edges| ==> g.edges[e].source in nodes)
    && !ForksOrJoins(nodes, ArcsOf(GraphAnalysis.ValidEdges(nodes, edges)))
  }

  lemma {:induction false} TraversedIsValid(nodes: Nodes, edges: seq<Edge>, i: nat)
    requires i < |Scheduler.TraversedEdges(nodes.Keys, edges)|
    requires var e := Scheduler.TraversedEdges(nodes.Keys, edges)[i]; e.source in nodes
    ensures var e := Scheduler.TraversedEdges(nodes.Keys, edges)[i];
            (e.source, e.target) in ArcsOf(GraphAnalysis.ValidEdges(nodes, edges))
  {
    var e, valid := Scheduler.TraversedEdges(nodes.Keys, edges)[i], GraphAnalysis.ValidEdges(nodes, edges);
    assert e in Scheduler.TraversedEdges(nodes.Keys, edges);
    assert e in valid;
    var k :| 0 <= k < |valid| && valid[k] == e;
  }

  /** Without joins each node has one predecessor. */
  lemma SequentialIsStatic(nodes: Nodes, edges: seq<Edge>, g: Graph, finish: map<string, nat>)
    requires Sequential(nodes, edges, g, finish)
    ensures Static(g, finish)
  {
    hide SearchResult, ArcsOf;
    var arcs := ArcsOf(GraphAnalysis.ValidEdges(nodes, edges));
    forall e, f | 0 <= e < |g.edges| && 0 <= f < |g.edges| && g.edges[e].target == g.edges[f].target
      ensures g.edges[e].source == g.edges[f].source
    {
      TraversedIsValid(nodes, edges, e);
      TraversedIsValid(nodes, edges, f);
      assert !GraphAnalysis.IsJoin(arcs, g.edges[e].target);
    }
  }

  /** At most one edge per exit, except that edges in parallel to one target may share an exit unless they loop back. */
  ghost predicate ClearExits(nodes: Nodes, g: Graph) {
    forall e, f :: 0 <= e < |g.edges| && 0 <= f < |g.edges| && e != f && g.edges[e].source == g.edges[f].source ==>
      var n := g.edges[e].source;
      if n in nodes && nodes[n] == Condition
      then g.edges[e].sourceHandle.Some? && g.edges[e].sourceHandle == g.edges[f].sourceHandle
           ==> g.edges[e].target == g.edges[f].target && e !in g.back
      else e !in g.back
  }

  lemma ClearExitsAreSame(nodes: Nodes, edges: seq<Edge>, g: Graph, finish: map<string, nat>, n: string,
                          branch: Option<int>)
    requires Sequential(nodes, edges, g, finish) && ClearExits(nodes, g) && Typed(nodes, n, branch)
    ensures SameExit(g, n, branch)
  {
    hide Sequential;
    forall e: nat, f: nat | g.Takes(e, n, branch) && g.Takes(f, n, branch) && e != f
      ensures g.edges[e].target == g.edges[f].target && e !in g.back
    {
      if nodes[n] != Condition {
        PlainTargetsAgree(nodes, edges, g, finish, e, f);
      }
    }
  }

  /** Without forks the edges of a plain node run in parallel. */
  lemma PlainTargetsAgree(nodes: Nodes, edges: seq<Edge>, g: Graph, finish: map<string, nat>, e: nat, f: nat)
    requires Sequential(nodes, edges, g, finish) && e < |g.edges| && f < |g.edges|
             && g.edges[e].source == g.edges[f].source
    requires g.edges[e].source in nodes && nodes[g.edges[e].source] != Condition
    ensures g.edges[e].target == g.edges[f].target
  {
    hide SearchResult, ArcsOf;
    TraversedIsValid(nodes, edges, e);
    TraversedIsValid(nodes, edges, f);
    assert !Fork(nodes, ArcsOf(GraphAnalysis.ValidEdges(nodes, edges)), g.edges[e].source);
  }

  /** The sequential engine: the node it is at, and the nodes it has run. */
  datatype Walk = Walk(current: Option<ReadyNode>, done: seq<ReadyNode>)

  /** One round of its loop: run the current node, stop at an END or where no edge leads on. */
  ghost function Advance(nodes: Nodes, edges: seq<Edge>, w: Walk, out: Completion): Walk
    requires w.current.Some?
  {
    var node := w.current.value;
    var next := if node.nodeId in Ends(nodes) then None else FindNextNode(edges, nodes.Keys, node.nodeId, out.branch);
    Walk(if next.Some? then Some(ReadyNode(next.value, out.data)) else None, w.done + [node])
  }

  ghost function WalkOn(nodes: Nodes, edges: seq<Edge>, w: Walk, script: seq<Turn>): Walk
    decreases |script|
  {
    if script == [] || w.current.None? then w
    else WalkOn(nodes, edges, Advance(nodes, edges, w, script[0].out), script[1..])
  }

  /** Each outcome fits the type of the node the walk is at. */
  ghost predicate TypedWalk(nodes: Nodes, edges: seq<Edge>, w: Walk, script: seq<Turn>)
    decreases |script|
  {
    script != [] && w.current.Some? ==>
      && Typed(nodes, w.current.value.nodeId, script[0].out.branch)
      && TypedWalk(nodes, edges, Advance(nodes, edges, w, script[0].out), script[1..])
  }

  /** The parallel run is where the walk is, with nothing else in flight and no token held. */
  ghost predicate InStep(g: Graph, finish: map<string, nat>, r: Run, w: Walk) {
    && r.done == w.done
    && r.pending == (if w.current.Some? then [w.current.value] else [])
    && AllEmpty(r.s)
    && (w.current.Some? ==> w.current.value.nodeId in finish)
  }

  lemma AdvanceInStep(nodes: Nodes, edges: seq<Edge>, g: Graph, finish: map<string, nat>, r: Run, w: Walk,
                      out: Completion)
    requires Sequential(nodes, edges, g, finish) && ClearExits(nodes, g)
    requires InStep(g, finish, r, w) && w.current.Some? && Typed(nodes, w.current.value.nodeId, out.branch)
    ensures InStep(g, finish, FinishWith(g, Ends(nodes), r, 0, out), Advance(nodes, edges, w, out))
  {
    hide Sequential, ClearExits, Static, AllEmpty, Graph.Selected, Complete, SameExit, FindNextNode, Typed;
    var node := w.current.value;
    assert WithoutAt(r.pending, 0) == [];
    if node.nodeId !in Ends(nodes) {
      SequentialIsStatic(nodes, edges, g, finish);
      ClearExitsAreSame(nodes, edges, g, finish, node.nodeId, out.branch);
      CompleteAgrees(g, r.s, finish, node.nodeId, out.data, out.branch);
      NextAgrees(nodes, edges, g, finish, node.nodeId, out.branch);
      var ready := Complete(g, r.s, node.nodeId, out.data, out.branch).1.ready;
      assert [] + ready == ready;
    }
  }

  lemma NextAgrees(nodes: Nodes, edges: seq<Edge>, g: Graph, finish: map<string, nat>, n: string, branch: Option<int>)
    requires Sequential(nodes, edges, g, finish) && n in finish
    ensures var taken := g.Selected(n, branch);
            && FindNextNode(edges, nodes.Keys, n, branch)
               == (if taken == [] then None else Some(g.edges[taken[0]].target))
            && (taken != [] ==> g.edges[taken[0]].target in finish)
  {
    hide FindNextNode, Reaches, ForksOrJoins;
    NextIsFirstSelected(nodes.Keys, edges, g, n, branch);
    var taken := g.Selected(n, branch);
    assert taken != [] ==> taken[0] in taken;
  }

  lemma {:induction false} WalkInStep(nodes: Nodes, edges: seq<Edge>, g: Graph, finish: map<string, nat>, r: Run,
                                      w: Walk, script: seq<Turn>)
    requires Sequential(nodes, edges, g, finish) && ClearExits(nodes, g)
    requires InStep(g, finish, r, w) && TypedWalk(nodes, edges, w, script)
    ensures InStep(g, finish, Drive(g, Ends(nodes), r, script), WalkOn(nodes, edges, w, script))
    decreases |script|
  {
    hide Sequential, ClearExits, AllEmpty, FinishWith, Advance;
    if script != [] && w.current.Some? {
      assert script[0].pick % |r.pending| == 0;
      AdvanceInStep(nodes, edges, g, finish, r, w, script[0].out);
      WalkInStep(nodes, edges, g, finish, FinishWith(g, Ends(nodes), r, 0, script[0].out),
                 Advance(nodes, edges, w, script[0].out), script[1..]);
    }
  }

  /**
   Engine agreement. On a graph the executor would run sequentially, loops included, the scheduler
   driven through any typed script has run exactly the nodes the sequential engine has run, on the
   same inputs and in the same order, has in flight exactly the node that engine is at, and holds
   no token.
   */
  lemma EnginesAgree(nodes: Nodes, edges: seq<Edge>, g: Graph, finish: map<string, nat>, script: seq<Turn>)
    requires Sequential(nodes, edges, g, finish) && ClearExits(nodes, g)
    requires TypedWalk(nodes, edges, Walk(Some(ReadyNode(g.start, map[])), []), script)
    ensures var r := Drive(g, Ends(nodes), Begin(g), script);
            var w := WalkOn(nodes, edges, Walk(Some(ReadyNode(g.start, map[])), []), script);
            && r.done == w.done
            && r.pending == (if w.current.Some? then [w.current.value] else [])
            && AllEmpty(r.s)
  {
    hide Drive, WalkOn, TypedWalk, Reaches, ClearExits;
    WalkInStep(nodes, edges, g, finish, Begin(g), Walk(Some(ReadyNode(g.start, map[])), []), script);
  }
}
