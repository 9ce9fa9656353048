/**
 Why reachable nodes must be entered from reachable nodes: an edge whose source never runs gates its
 target for ever. On an acyclic workflow all reachable nodes get resolved exactly when no edge
 into a reachable node dangles.
 */
module DanglingEdges {
  import opened Workflow
  import opened Digraph
  import opened DagModel
  import opened BackEdges
  import opened DagRuns
  import opened Confluence

  /** A forward in-edge of n comes from a node START does not reach. */
  ghost predicate Blocked(g: Graph, finish: map<string, nat>, n: string) {
    exists e: nat :: g.Gates(e, n) && g.edges[e].source !in finish
  }

  /** Only reachable nodes send: tokens, pending deliveries and deaths all come from them. */
  ghost predicate Reached(g: Graph, finish: map<string, nat>, s: State, agenda: seq<Item>) {
    && (forall i :: 0 <= i < |agenda| ==> agenda[i].edge < |g.edges| && g.edges[agenda[i].edge].source in finish)
    && (forall n :: n in s.dead ==> n in finish && !Blocked(g, finish, n))
    && TokensReached(g, finish, s)
  }

  ghost predicate TokensReached(g: Graph, finish: map<string, nat>, s: State) {
    forall n, e :: e in s.Tok(n) ==> g.Gates(e, n) && g.edges[e].source in finish
  }

  /** Nodes that can be made ready: reachable ones that nothing blocks. */
  ghost predicate Open(g: Graph, finish: map<string, nat>, ready: seq<ReadyNode>) {
    forall i :: 0 <= i < |ready| ==> ready[i].nodeId in finish && !Blocked(g, finish, ready[i].nodeId)
  }

  ghost predicate Targeted(g: Graph, finish: map<string, nat>) {
    g.back == {} && forall e :: 0 <= e < |g.edges| && g.edges[e].source in finish ==> g.edges[e].target in finish
  }

  lemma PutReached(g: Graph, finish: map<string, nat>, s: State, it: Item)
    requires Targeted(g, finish) && TokensReached(g, finish, s) && it.edge < |g.edges|
             && g.edges[it.edge].source in finish
    ensures TokensReached(g, finish, PutToken(g, s, it))
  {
    var s', t := PutToken(g, s, it), g.edges[it.edge].target;
    forall n, e | e in s'.Tok(n) ensures g.Gates(e, n) && g.edges[e].source in finish {
      if n != t {
        assert s'.Tok(n) == s.Tok(n);
      }
    }
  }

  /** A full table means that nothing blocks the node. */
  lemma FullIsOpen(g: Graph, finish: map<string, nat>, s: State, t: string)
    requires TokensReached(g, finish, s) && Saturated(g, s, t)
    ensures !Blocked(g, finish, t)
  {
    assert forall e :: e in s.Tok(t) ==> g.Gates(e, t) && g.edges[e].source in finish;
    BarrierIsFullness(g, s.Tok(t), t);
  }

  lemma StepReached(g: Graph, finish: map<string, nat>, s: State, agenda: seq<Item>)
    requires Targeted(g, finish) && Reached(g, finish, s, agenda) && agenda != []
    ensures var (s', ready, owed) := Step(g, s, agenda[0]);
            Reached(g, finish, s', owed + agenda[1..]) && Open(g, finish, ready)
  {
    hide Blocked, TokensReached, Step, Open;
    StepKeepsTokens(g, finish, s, agenda[0]);
    StepOpens(g, finish, s, agenda[0]);
    StepOwes(g, finish, s, agenda[0]);
    var (s', ready, owed) := Step(g, s, agenda[0]);
    var rest := agenda[1..];
    forall i | 0 <= i < |owed + rest|
      ensures (owed + rest)[i] == if i < |owed| then owed[i] else agenda[i - |owed| + 1]
    {
    }
  }

  lemma StepKeepsTokens(g: Graph, finish: map<string, nat>, s: State, it: Item)
    requires Targeted(g, finish) && TokensReached(g, finish, s) && it.edge < |g.edges|
             && g.edges[it.edge].source in finish
    ensures TokensReached(g, finish, Step(g, s, it).0)
  {
    hide Merge, LiveSources, TokensReached, Graph.ForwardIn, Graph.ForwardOut;
    var t, put, s' := g.edges[it.edge].target, PutToken(g, s, it), Step(g, s, it).0;
    PutReached(g, finish, s, it);
    ClearReached(g, finish, put, t);
    SameTokensReached(g, finish, put.(tokens := put.tokens[t := map[]]), s');
    SameTokensReached(g, finish, put, s');
  }

  /** Who runs or dies has a full table, so nothing blocks it. */
  lemma StepOpens(g: Graph, finish: map<string, nat>, s: State, it: Item)
    requires Targeted(g, finish) && TokensReached(g, finish, s) && it.edge < |g.edges|
             && g.edges[it.edge].source in finish
    ensures var (s', ready, owed) := Step(g, s, it);
            && Open(g, finish, ready)
            && (forall n :: n in s'.dead && n !in s.dead ==> n in finish && !Blocked(g, finish, n))
  {
    hide Blocked, Merge, LiveSources, TokensReached, Graph.ForwardIn, Graph.ForwardOut;
    var t, put := g.edges[it.edge].target, PutToken(g, s, it);
    PutReached(g, finish, s, it);
    if Saturated(g, put, t) {
      FullIsOpen(g, finish, put, t);
    }
  }

  lemma StepOwes(g: Graph, finish: map<string, nat>, s: State, it: Item)
    requires Targeted(g, finish) && it.edge < |g.edges| && g.edges[it.edge].source in finish
    ensures forall x :: x in Step(g, s, it).2 ==> x.edge < |g.edges| && g.edges[x.edge].source in finish
  {
    hide Merge, LiveSources, Graph.ForwardIn, Graph.ForwardOut;
    var t, owed := g.edges[it.edge].target, Step(g, s, it).2;
    forall x | x in owed ensures x.edge < |g.edges| && g.edges[x.edge].source in finish {
      OwedFrom(g, t, x.edge);
    }
  }

  lemma OwedFrom(g: Graph, t: string, e: nat)
    ensures e in g.ForwardOut(t) ==> g.Leaves(e, t)
  {
  }

  lemma ClearReached(g: Graph, finish: map<string, nat>, s: State, t: string)
    requires TokensReached(g, finish, s)
    ensures TokensReached(g, finish, s.(tokens := s.tokens[t := map[]]))
  {
    var s' := s.(tokens := s.tokens[t := map[]]);
    assert forall n :: n != t ==> s'.Tok(n) == s.Tok(n);
  }

  lemma SameTokensReached(g: Graph, finish: map<string, nat>, s: State, s': State)
    requires TokensReached(g, finish, s)
    ensures s'.tokens == s.tokens ==> TokensReached(g, finish, s')
  {
    assert s'.tokens == s.tokens ==> forall n :: s'.Tok(n) == s.Tok(n);
  }

  lemma {:induction false} ExecReached(g: Graph, finish: map<string, nat>, s: State, agenda: seq<Item>)
    requires Targeted(g, finish) && Reached(g, finish, s, agenda) && ValidItems(g, agenda)
    ensures Reached(g, finish, Exec(g, s, agenda).0, []) && Open(g, finish, Exec(g, s, agenda).1)
    decreases g.Targets() - s.dead, |agenda|
  {
    hide Step, Blocked, TokensReached;
    if agenda != [] {
      var (s1, ready, owed) := Step(g, s, agenda[0]);
      StepReached(g, finish, s, agenda);
      ExecReached(g, finish, s1, owed + agenda[1..]);
    }
  }

  ghost predicate RunReached(g: Graph, finish: map<string, nat>, r: Run) {
    && Reached(g, finish, r.s, [])
    && (forall i :: 0 <= i < |r.pending| ==> Allowed(g, finish, r.pending[i]))
    && (forall i :: 0 <= i < |r.done| ==> Allowed(g, finish, r.done[i]))
  }

  ghost predicate Allowed(g: Graph, finish: map<string, nat>, x: ReadyNode) {
    x.nodeId in finish && (x.nodeId == g.start || !Blocked(g, finish, x.nodeId))
  }

  lemma FinishReached(g: Graph, terminals: set<string>, finish: map<string, nat>, r: Run, i: nat, out: Completion)
    requires Targeted(g, finish) && RunReached(g, finish, r) && i < |r.pending|
    ensures RunReached(g, finish, FinishWith(g, terminals, r, i, out))
  {
    hide Blocked, TokensReached, Exec, CompleteAgenda, Targeted;
    var n, rest := r.pending[i].nodeId, WithoutAt(r.pending, i);
    assert forall k :: 0 <= k < |rest| ==> rest[k] == r.pending[if k < i then k else k + 1];
    if n !in terminals {
      var s1 := r.s.(outputs := r.s.outputs[n := out.data]);
      SameTokensReached(g, finish, r.s, s1);
      AgendaByPosition(g, n, out.branch);
      ExecReached(g, finish, s1, CompleteAgenda(g, n, out.branch));
    }
  }

  lemma {:induction false} DriveReached(g: Graph, terminals: set<string>, finish: map<string, nat>, r: Run,
                                        script: seq<Turn>)
    requires Targeted(g, finish) && RunReached(g, finish, r)
    ensures RunReached(g, finish, Drive(g, terminals, r, script))
    decreases |script|
  {
    hide RunReached, FinishWith;
    if script != [] && r.pending != [] {
      var i := script[0].pick % |r.pending|;
      FinishReached(g, terminals, finish, r, i, script[0].out);
      DriveReached(g, terminals, finish, FinishWith(g, terminals, r, i, script[0].out), script[1..]);
    }
  }

  /** A blocked node is never resolved, in no run of an acyclic workflow, and nothing unreachable ever is. */
  lemma BlockedNeverResolves(g: Graph, terminals: set<string>, finish: map<string, nat>, script: seq<Turn>, n: string)
    requires SearchResult(g.start, g.edges, g.back, finish) && g.back == {}
    requires n != g.start && (Blocked(g, finish, n) || n !in finish)
    ensures var r := Drive(g, terminals, Begin(g), script);
            && n !in r.s.dead
            && (forall i :: 0 <= i < |r.pending| ==> r.pending[i].nodeId != n)
            && (forall i :: 0 <= i < |r.done| ==> r.done[i].nodeId != n)
  {
    hide Blocked, Reaches;
    assert Targeted(g, finish);
    assert RunReached(g, finish, Begin(g));
    DriveReached(g, terminals, finish, Begin(g), script);
  }

  ghost predicate ResolvedIn(r: Run, n: string) {
    n in r.s.dead || exists i :: 0 <= i < |r.done| && r.done[i].nodeId == n
  }

  /** Apart from START, a reachable node is entered from reachable nodes only. */
  ghost predicate NothingDangles(g: Graph, finish: map<string, nat>) {
    forall e :: 0 <= e < |g.edges| && g.edges[e].target in finish && g.edges[e].target != g.start
        ==> g.edges[e].source in finish
  }

  /**
   Exactly when an acyclic workflow gets resolved: any run long enough resolves every reachable
   node if and only if no edge into one of them, START excepted, comes from an unreachable node.
   Edges among unreachable nodes and edges into START do not matter.
   */
  lemma ResolvedIffNothingDangles(g: Graph, terminals: set<string>, finish: map<string, nat>, script: seq<Turn>)
    requires LoopFree(g, finish) && |script| > |finish|
    requires forall e :: 0 <= e < |g.edges| && g.edges[e].source in finish ==> g.edges[e].source !in terminals
    ensures (forall n :: n in finish ==> ResolvedIn(Drive(g, terminals, Begin(g), script), n))
            <==> NothingDangles(g, finish)
  {
    hide Reaches, Drive, ResolvedIn, FatedEnd, Made;
    var r := Drive(g, terminals, Begin(g), script);
    if NothingDangles(g, finish) {
      NoBackEdgesIffAcyclic(g.start, g.edges, g.back, finish);
      assert Runnable(g, terminals, finish);
      EveryRunEndsAsFated(g, terminals, finish, script);
      forall n | n in finish ensures ResolvedIn(r, n) {
        FatedResolves(g, Made(r.done, Outs(script)), RankOf(g.start, finish), r, n);
      }
    } else {
      var e: nat :| e < |g.edges| && g.edges[e].target in finish && g.edges[e].target != g.start
          && g.edges[e].source !in finish;
      var n := g.edges[e].target;
      assert Blocked(g, finish, n) by { assert g.Gates(e, n); }
      BlockedNeverResolves(g, terminals, finish, script, n);
      assert !ResolvedIn(r, n) by { NotResolved(r, n); }
    }
  }

  lemma NotResolved(r: Run, n: string)
    requires n !in r.s.dead && forall i :: 0 <= i < |r.done| ==> r.done[i].nodeId != n
    ensures !ResolvedIn(r, n)
  {
  }

  lemma FatedResolves(g: Graph, beh: Behaviour, rank: map<string, nat>, r: Run, n: string)
    requires Layered(g, rank) && FatedEnd(g, beh, rank, r) && n in rank
    ensures ResolvedIn(r, n)
  {
    hide Fate;
    var fate := Fate(g, beh, rank, n);
    if fate.Some? {
      var x := ReadyNode(n, fate.value);
      assert x in FatedRuns(g, beh, rank);
      var i :| 0 <= i < |r.done| && r.done[i] == x;
    }
  }
}
