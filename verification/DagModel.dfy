/**
 The fork/join scheduler as functions on values: what one `complete` call does to the token
 tables and what it makes ready. An agenda lists the edge deliveries still to be made, in the
 order in which `complete` and its recursive calls make them; a dying node puts its own deliveries in front.
 */
module DagModel {
  import opened Workflow
  import opened Collections

  datatype Status = Live | Dead

  datatype ReadyNode = ReadyNode(nodeId: string, inputData: Payload)

  datatype CompleteResult = CompleteResult(ready: seq<ReadyNode>, liveOutCount: nat)

  /** The numbers below n that satisfy p, in order. */
  function Indices(n: nat, p: nat -> bool): (r: seq<nat>)
    ensures forall e: nat :: e in r <==> e < n && p(e)
    ensures forall i :: 0 <= i < |r| ==> r[i] < n && p(r[i])
    ensures Increasing(r)
  {
    if n == 0 then []
    else
      var init := Indices(n - 1, p);
      assert forall i :: 0 <= i < |init| ==> init[i] in init;
      init + if p(n - 1) then [n - 1] else []
  }

  ghost predicate Increasing(es: seq<nat>) {
    forall i, j :: 0 <= i < j < |es| ==> es[i] < es[j]
  }

  lemma SomeListed(es: seq<nat>)
    ensures es == [] || exists e: nat :: e in es
  {
    if es != [] {
      assert es[0] in es;
    }
  }

  /** The edges leaving n, in edge order. */
  function OutOf(edges: seq<Edge>, n: string): (r: seq<nat>)
    ensures forall e: nat :: e in r <==> e < |edges| && edges[e].source == n
    ensures forall i :: 0 <= i < |r| ==> r[i] < |edges| && edges[r[i]].source == n
    ensures Increasing(r)
  {
    Indices(|edges|, (e: nat) => e < |edges| && edges[e].source == n)
  }

  /** The static part of a scheduler: valid edges, and which of them are back-edges. An edge's identity is its index. */
  datatype Graph = Graph(start: string, edges: seq<Edge>, back: set<nat>) {

    predicate Leaves(e: nat, n: string) {
      e < |edges| && edges[e].source == n
    }

    predicate Gates(e: nat, n: string) {
      e < |edges| && edges[e].target == n && e !in back
    }

    /** Whether the edge belongs to the branch n left by: any branch of a plain node, one handle of a router. */
    predicate Takes(e: nat, n: string, branch: Option<int>) {
      Leaves(e, n) && (branch.None? || edges[e].sourceHandle == Some(Handle(n, branch.value)))
    }

    function Out(n: string): (r: seq<nat>)
      ensures forall e: nat :: e in r <==> Leaves(e, n)
      ensures Increasing(r)
    {
      OutOf(edges, n)
    }

    /** The join-gating in-edges of n: incoming minus back-edges. */
    function ForwardIn(n: string): (r: seq<nat>)
      ensures forall e: nat :: e in r <==> Gates(e, n)
      ensures Increasing(r)
    {
      Indices(|edges|, (e: nat) => Gates(e, n))
    }

    /** The edges a completed node leaves by. */
    function Selected(n: string, branch: Option<int>): (r: seq<nat>)
      ensures forall e: nat :: e in r <==> Takes(e, n, branch)
      ensures Increasing(r)
    {
      Indices(|edges|, (e: nat) => Takes(e, n, branch))
    }

    predicate LoopsBack(n: string, branch: Option<int>) {
      exists e :: e in Selected(n, branch) && e in back
    }

    /** The forward edges a router did not take; none when it took a back-edge, none for a plain node. */
    function Siblings(n: string, branch: Option<int>): (r: seq<nat>)
      ensures forall e: nat :: e in r <==> Leaves(e, n) && !Takes(e, n, branch) && e !in back && !LoopsBack(n, branch)
      ensures Increasing(r)
    {
      if branch.None? || LoopsBack(n, branch) then []
      else Indices(|edges|, (e: nat) => Leaves(e, n) && !Takes(e, n, branch) && e !in back)
    }

    function ForwardOut(n: string): (r: seq<nat>)
      ensures forall e: nat :: e in r <==> Leaves(e, n) && e !in back
      ensures Increasing(r)
    {
      Indices(|edges|, (e: nat) => Leaves(e, n) && e !in back)
    }

    ghost function Targets(): set<string> {
      set e | 0 <= e < |edges| :: edges[e].target
    }
  }

  /** The mutable part: tokens since the last fire, last outputs, nodes resolved dead. */
  datatype State = State(tokens: map<string, map<nat, Status>>, outputs: map<string, Payload>, dead: set<string>) {

    function Tok(n: string): map<nat, Status> {
      if n in tokens then tokens[n] else map[]
    }

    function Output(n: string): Payload {
      if n in outputs then outputs[n] else map[]
    }
  }

  const EMPTY_STATE := State(map[], map[], {})

  datatype Item = Item(edge: nat, status: Status)

  ghost predicate InRange(g: Graph, es: seq<nat>) {
    forall i :: 0 <= i < |es| ==> es[i] < |g.edges|
  }

  /** The forward in-edges of n holding a LIVE token. */
  function LiveSources(g: Graph, tokens: map<nat, Status>, n: string): (r: seq<nat>)
    ensures forall e: nat :: e in r <==> g.Gates(e, n) && e in tokens && tokens[e] == Live
    ensures Increasing(r) && InRange(g, r)
  {
    Indices(|g.edges|, (e: nat) => g.Gates(e, n) && e in tokens && tokens[e] == Live)
  }

  /** Outputs of the sources of es, later edges overriding earlier ones. */
  function Merge(g: Graph, s: State, es: seq<nat>): Payload
    requires InRange(g, es)
  {
    if es == [] then map[]
    else
      Merge(g, s, es[..|es| - 1]) + s.Output(g.edges[es[|es| - 1]].source)
  }

  function Items(es: seq<nat>, status: Status): (r: seq<Item>)
    ensures |r| == |es| && forall i :: 0 <= i < |es| ==> r[i] == Item(es[i], status)
    ensures forall it :: it in r <==> it.edge in es && it.status == status
  {
    var r := seq(|es|, i requires 0 <= i < |es| => Item(es[i], status));
    assert forall i :: 0 <= i < |es| ==> r[i] == Item(es[i], status);
    r
  }

  /** A node's reaction once its token table may be full. */
  function Fire(g: Graph, s: State, n: string): (r: (State, seq<ReadyNode>, seq<Item>))
    ensures r.0.outputs == s.outputs
    ensures r.2 != [] ==> n !in s.dead && r.0.dead == s.dead + {n} && g.ForwardIn(n) != []
    ensures s.dead <= r.0.dead <= s.dead + {n}
    ensures forall it :: it in r.2 ==> it.edge < |g.edges| && it.edge !in g.back
  {
    var fin := g.ForwardIn(n);
    if fin == [] || |s.Tok(n)| < |fin| then (s, [], [])
    else
      var cleared := s.(tokens := s.tokens[n := map[]]);
      var live := LiveSources(g, s.Tok(n), n);
      if live != [] then (cleared, [ReadyNode(n, Merge(g, cleared, live))], [])
      else if n in s.dead then (cleared, [], [])
      else (cleared.(dead := s.dead + {n}), [], Items(g.ForwardOut(n), Dead))
  }

  function PutToken(g: Graph, s: State, it: Item): State
    requires it.edge < |g.edges|
  {
    var t := g.edges[it.edge].target;
    s.(tokens := s.tokens[t := s.Tok(t)[it.edge := it.status]])
  }

  /** One agenda entry: re-activate the target of a back-edge, or put a token on a forward edge. */
  function Step(g: Graph, s: State, it: Item): (r: (State, seq<ReadyNode>, seq<Item>))
    requires it.edge < |g.edges|
    ensures r.2 != [] ==> (g.Targets() - r.0.dead) < (g.Targets() - s.dead)
    ensures r.2 == [] ==> (g.Targets() - r.0.dead) <= (g.Targets() - s.dead)
    ensures s.dead <= r.0.dead && r.0.outputs == s.outputs
    ensures forall x :: x in r.2 ==> x.edge < |g.edges|
  {
    var e := g.edges[it.edge];
    if it.edge in g.back then (s, [ReadyNode(e.target, s.Output(e.source))], [])
    else
      var r := Fire(g, PutToken(g, s, it), e.target);
      assert e.target in g.Targets();
      assert r.2 != [] ==> e.target !in s.dead && e.target in r.0.dead;
      r
  }

  ghost predicate ValidItems(g: Graph, agenda: seq<Item>) {
    forall i :: 0 <= i < |agenda| ==> agenda[i].edge < |g.edges|
  }

  /** Works an agenda off. Terminates because every node dies at most once. */
  function Exec(g: Graph, s: State, agenda: seq<Item>): (r: (State, seq<ReadyNode>))
    requires ValidItems(g, agenda)
    ensures s.dead <= r.0.dead && r.0.outputs == s.outputs
    decreases g.Targets() - s.dead, |agenda|
  {
    if agenda == [] then (s, [])
    else
      var (s1, ready, owed) := Step(g, s, agenda[0]);
      var (s2, more) := Exec(g, s1, owed + agenda[1..]);
      (s2, ready + more)
  }

  /** The deliveries `complete` makes for a node that left by `branch`. */
  function CompleteAgenda(g: Graph, n: string, branch: Option<int>): (r: seq<Item>)
    ensures ValidItems(g, r)
    ensures forall it :: it in r <==>
                         || (g.Takes(it.edge, n, branch) && it.status == Live)
                         || (it.edge in g.Siblings(n, branch) && it.status == Dead)
  {
    Items(g.Selected(n, branch), Live) + Items(g.Siblings(n, branch), Dead)
  }

  /** `complete` on a non-terminal node. */
  function Complete(g: Graph, s: State, n: string, data: Payload, branch: Option<int>): (State, CompleteResult) {
    var recorded := s.(outputs := s.outputs[n := data]);
    var (s1, ready) := Exec(g, recorded, CompleteAgenda(g, n, branch));
    (s1, CompleteResult(ready, |g.Selected(n, branch)|))
  }

  lemma ExecUnfold(g: Graph, s: State, agenda: seq<Item>)
    requires ValidItems(g, agenda) && agenda != []
    ensures var (s1, ready, owed) := Step(g, s, agenda[0]);
            Exec(g, s, agenda) == (Exec(g, s1, owed + agenda[1..]).0, ready + Exec(g, s1, owed + agenda[1..]).1)
  {
  }

  lemma ExecNothing(g: Graph, s: State)
    ensures Exec(g, s, []) == (s, [])
  {
  }

  /** Working off two agendas in a row is working off their concatenation. */
  lemma {:induction false} ExecAppend(g: Graph, s: State, a: seq<Item>, b: seq<Item>)
    requires ValidItems(g, a) && ValidItems(g, b)
    ensures Exec(g, s, a + b).0 == Exec(g, Exec(g, s, a).0, b).0
    ensures Exec(g, s, a + b).1 == Exec(g, s, a).1 + Exec(g, Exec(g, s, a).0, b).1
    decreases g.Targets() - s.dead, |a|
  {
    hide Step;
    if a == [] {
      assert a + b == b;
    } else {
      var (s1, ready, owed) := Step(g, s, a[0]);
      var rest := owed + a[1..];
      ExecAppend(g, s1, rest, b);
      ExecUnfold(g, s, a);
      ExecUnfold(g, s, a + b);
      assert owed + (a + b)[1..] == rest + b;
    }
  }

  ghost predicate Saturated(g: Graph, s: State, n: string) {
    g.ForwardIn(n) != [] && |s.Tok(n)| >= |g.ForwardIn(n)|
  }

  /** The three things a token can lead to: nothing yet, a run, or the death of the target. */
  ghost function Reaction(g: Graph, s: State, n: string): (State, seq<ReadyNode>) {
    var (s1, fired, owed) := Fire(g, s, n);
    (Exec(g, s1, owed).0, fired + Exec(g, s1, owed).1)
  }

  lemma FireWaits(g: Graph, s: State, n: string)
    requires !Saturated(g, s, n)
    ensures Reaction(g, s, n) == (s, [])
  {
    hide Exec;
    var (s1, fired, owed) := Fire(g, s, n);
    ExecNothing(g, s1);
    assert fired + [] == fired;
  }

  lemma FireRuns(g: Graph, s: State, n: string)
    requires Saturated(g, s, n) && LiveSources(g, s.Tok(n), n) != []
    ensures var cleared := s.(tokens := s.tokens[n := map[]]);
            Reaction(g, s, n) == (cleared, [ReadyNode(n, Merge(g, cleared, LiveSources(g, s.Tok(n), n)))])
  {
    hide Exec;
    var (s1, fired, owed) := Fire(g, s, n);
    ExecNothing(g, s1);
    assert fired + [] == fired;
  }

  lemma FireDies(g: Graph, s: State, n: string)
    requires Saturated(g, s, n) && LiveSources(g, s.Tok(n), n) == []
    ensures var cleared := s.(tokens := s.tokens[n := map[]]);
            Reaction(g, s, n) == if n in s.dead then (cleared, [])
                                 else Exec(g, cleared.(dead := s.dead + {n}), Items(g.ForwardOut(n), Dead))
  {
    hide Exec;
    var (s1, fired, owed) := Fire(g, s, n);
    ExecNothing(g, s1);
    assert [] + Exec(g, s1, owed).1 == Exec(g, s1, owed).1;
  }

  /** A single forward delivery: put the token, let the target react, settle what it owes. */
  lemma ExecForward(g: Graph, s: State, it: Item)
    requires it.edge < |g.edges| && it.edge !in g.back
    ensures Exec(g, s, [it]) == Reaction(g, PutToken(g, s, it), g.edges[it.edge].target)
  {
    hide Exec, Fire;
    ExecUnfold(g, s, [it]);
    var owed := Step(g, s, it).2;
    assert owed + [it][1..] == owed;
  }

  /** A back-edge only re-activates its target. */
  lemma ReactivateStep(g: Graph, s: State, it: Item)
    requires it.edge < |g.edges|
    ensures it.edge in g.back ==>
              Exec(g, s, [it]) == (s, [ReadyNode(g.edges[it.edge].target, s.Output(g.edges[it.edge].source))])
  {
    hide Fire;
    hide Exec;
    if it.edge in g.back {
      ExecUnfold(g, s, [it]);
      ExecNothing(g, s);
      assert [] + [it][1..] == [];
      assert Step(g, s, it).1 + [] == Step(g, s, it).1;
    }
  }

  lemma DeliverOneMore(g: Graph, s: State, es: seq<nat>, i: nat, status: Status)
    requires i < |es| && InRange(g, es)
    ensures var before, after := Exec(g, s, Items(es[..i], status)), Exec(g, s, Items(es[..i + 1], status));
            after == (Exec(g, before.0, [Item(es[i], status)]).0, before.1 + Exec(g, before.0, [Item(es[i], status)]).1)
  {
    hide Exec, Step;
    assert Items(es[..i + 1], status) == Items(es[..i], status) + [Item(es[i], status)];
    ExecAppend(g, s, Items(es[..i], status), [Item(es[i], status)]);
  }

  function Elements(es: seq<nat>): set<nat> {
    set e | e in es
  }

  lemma {:induction false} IncreasingSize(es: seq<nat>)
    requires Increasing(es)
    ensures |Elements(es)| == |es|
  {
    if es != [] {
      var init, last := es[..|es| - 1], es[|es| - 1];
      assert Increasing(init);
      IncreasingSize(init);
      assert es == init + [last];
      assert last !in init;
      assert Elements(es) == Elements(init) + {last};
    }
  }

  /** The barrier test compares sizes; for tokens on forward in-edges that is the test for fullness. */
  lemma BarrierIsFullness(g: Graph, tok: map<nat, Status>, n: string)
    requires forall e :: e in tok ==> g.Gates(e, n)
    ensures |tok| < |g.ForwardIn(n)| <==> exists e: nat :: g.Gates(e, n) && e !in tok
  {
    var fin := g.ForwardIn(n);
    var all := Elements(fin);
    IncreasingSize(fin);
    assert tok.Keys <= all;
    if exists e: nat :: g.Gates(e, n) && e !in tok {
      var e: nat :| g.Gates(e, n) && e !in tok;
      assert e in fin;
      SubsetSize(tok.Keys, all - {e});
    } else {
      assert tok.Keys == all;
    }
  }

  /** An edge is still to be delivered. */
  ghost predicate OnAgenda(agenda: seq<Item>, e: nat) {
    exists i :: 0 <= i < |agenda| && agenda[i].edge == e
  }

  /** Unless a back-edge was taken, every forward out-edge is delivered. */
  lemma AgendaCovers(g: Graph, n: string, branch: Option<int>, e: nat)
    requires g.Leaves(e, n) && e !in g.back && !g.LoopsBack(n, branch)
    ensures OnAgenda(CompleteAgenda(g, n, branch), e)
  {
    var agenda := CompleteAgenda(g, n, branch);
    var item := if g.Takes(e, n, branch) then Item(e, Live) else Item(e, Dead);
    assert item in agenda;
    var k :| 0 <= k < |agenda| && agenda[k] == item;
  }

  lemma AgendaIsComplete(g: Graph, n: string, branch: Option<int>)
    ensures forall e: nat :: g.Takes(e, n, branch) ==> Item(e, Live) in CompleteAgenda(g, n, branch)
    ensures if exists e: nat :: g.Takes(e, n, branch) && e in g.back
            then |CompleteAgenda(g, n, branch)| == |g.Selected(n, branch)|
            else forall e: nat :: g.Leaves(e, n) && e !in g.back ==> OnAgenda(CompleteAgenda(g, n, branch), e)
  {
    if e: nat :| g.Takes(e, n, branch) && e in g.back {
      assert e in g.Selected(n, branch);
      assert g.LoopsBack(n, branch);
      assert g.Siblings(n, branch) == [];
    } else {
      hide CompleteAgenda, Graph.Siblings, OnAgenda;
      assert !g.LoopsBack(n, branch);
      forall e: nat | g.Leaves(e, n) && e !in g.back ensures OnAgenda(CompleteAgenda(g, n, branch), e) {
        AgendaCovers(g, n, branch, e);
      }
    }
  }

  /**
   The deliveries of a completion: the edges taken, LIVE, then the siblings, DEAD; none twice. With a
   back-edge taken no sibling is delivered; otherwise no forward out-edge is left out.
   */
  lemma AgendaByPosition(g: Graph, n: string, branch: Option<int>)
    ensures var agenda, taken := CompleteAgenda(g, n, branch), g.Selected(n, branch);
            && |taken| <= |agenda|
            && (forall i :: 0 <= i < |agenda| ==> g.Leaves(agenda[i].edge, n))
            && (forall i :: 0 <= i < |taken| ==> g.Takes(agenda[i].edge, n, branch) && agenda[i].status == Live)
            && (forall i :: |taken| <= i < |agenda|
                   ==> agenda[i].edge !in g.back && !g.Takes(agenda[i].edge, n, branch) && agenda[i].status == Dead)
            && (forall i, j :: 0 <= i < j < |agenda| ==> agenda[i].edge != agenda[j].edge)
            && (forall e: nat :: g.Takes(e, n, branch) ==> Item(e, Live) in agenda)
            && if exists e: nat :: g.Takes(e, n, branch) && e in g.back then |agenda| == |taken|
               else forall e: nat :: g.Leaves(e, n) && e !in g.back ==> OnAgenda(agenda, e)
  {
    AgendaIsComplete(g, n, branch);
    hide Graph.Selected, Graph.Siblings;
    var agenda, taken, others := CompleteAgenda(g, n, branch), g.Selected(n, branch), g.Siblings(n, branch);
    forall i | 0 <= i < |agenda|
      ensures g.Leaves(agenda[i].edge, n)
      ensures if i < |taken| then agenda[i] == Item(taken[i], Live) && g.Takes(agenda[i].edge, n, branch)
              else agenda[i] == Item(others[i - |taken|], Dead) && agenda[i].edge !in g.back
                   && !g.Takes(agenda[i].edge, n, branch)
    {
      if i < |taken| {
        assert taken[i] in taken;
      } else {
        assert others[i - |taken|] in others;
      }
    }
  }
}
