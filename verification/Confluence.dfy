/**
 Runs of an acyclic workflow, with pending nodes finishing in any order and with any outcome. Each
 reachable node is resolved exactly once, and what it resolves to is a function of what the nodes
 did when they ran, with no reference to the order.
 */
module Confluence {
  import opened Workflow
  import opened Collections
  import opened Digraph
  import opened DagModel
  import opened BackEdges
  import opened DagRuns

  /** What nodes do, by node and input. */
  type Behaviour = (string, Payload) -> Completion

  /**
   No back-edges, and the edges of ranked nodes climb a rank that START is the bottom of. Unranked
   nodes may have any edges, also into ranked ones.
   */
  ghost predicate Layered(g: Graph, rank: map<string, nat>) {
    && g.back == {}
    && g.start in rank && rank[g.start] == 0
    && (forall e :: 0 <= e < |g.edges| && g.edges[e].source in rank ==>
          g.edges[e].target in rank && rank[g.edges[e].source] < rank[g.edges[e].target])
  }

  ghost function Height(rank: map<string, nat>, n: string): nat {
    if n in rank then rank[n] else 0
  }

  /** Whether the edge carries a LIVE token: its source runs and leaves by it. */
  ghost predicate Carries(g: Graph, beh: Behaviour, rank: map<string, nat>, e: nat)
    requires Layered(g, rank) && e < |g.edges|
    decreases Height(rank, g.edges[e].target), 0
  {
    var source := g.edges[e].source;
    source in rank &&
    var fate := Fate(g, beh, rank, source);
    fate.Some? && g.Takes(e, source, beh(source, fate.value).branch)
  }

  ghost function CarryingInto(g: Graph, beh: Behaviour, rank: map<string, nat>, n: string): (r: seq<nat>)
    requires Layered(g, rank)
    ensures forall e: nat :: e in r <==> g.Gates(e, n) && Carries(g, beh, rank, e)
    ensures forall i :: 0 <= i < |r| ==> g.Gates(r[i], n) && Carries(g, beh, rank, r[i])
    decreases Height(rank, n), 1
  {
    Indices(|g.edges|, (e: nat) => g.Gates(e, n) && Carries(g, beh, rank, e))
  }

  /** The outputs of running sources, the last edge winning. */
  ghost function MergeFates(g: Graph, beh: Behaviour, rank: map<string, nat>, n: string, es: seq<nat>): Payload
    requires Layered(g, rank)
    requires forall i :: 0 <= i < |es| ==> g.Gates(es[i], n) && Carries(g, beh, rank, es[i])
    decreases Height(rank, n), 1, |es|
  {
    if es == [] then map[]
    else
      var last := es[|es| - 1];
      assert g.Gates(last, n) && Carries(g, beh, rank, last);
      var source := g.edges[last].source;
      MergeFates(g, beh, rank, n, es[..|es| - 1]) + beh(source, Fate(g, beh, rank, source).value).data
  }

  /** The order-independent outcome of a node: the input it runs on, or None when all its branches are pruned. */
  ghost function Fate(g: Graph, beh: Behaviour, rank: map<string, nat>, n: string): Option<Payload>
    requires Layered(g, rank)
    decreases Height(rank, n), 2
  {
    if n == g.start then Some(map[])
    else
      var live := CarryingInto(g, beh, rank, n);
      if live == [] then None else Some(MergeFates(g, beh, rank, n, live))
  }

  ghost function Due(g: Graph, beh: Behaviour, rank: map<string, nat>, e: nat): Status
    requires Layered(g, rank) && e < |g.edges|
  {
    if Carries(g, beh, rank, e) then Live else Dead
  }

  /**
   Who has become ready on what input, who has completed, which of those the scheduler was told of,
   and which tokens have been delivered.
   */
  datatype Ledger = Ledger(ready: map<string, Payload>, completed: set<string>, sent: set<string>, delivered: set<nat>)

  ghost predicate Resolved(s: State, l: Ledger, n: string) {
    n in l.ready || n in s.dead
  }

  ghost predicate Emitted(g: Graph, s: State, l: Ledger, e: nat) {
    e < |g.edges| && (g.edges[e].source in l.sent || g.edges[e].source in s.dead)
  }

  ghost predicate AgendaOk(g: Graph, beh: Behaviour, rank: map<string, nat>, s: State, agenda: seq<Item>, l: Ledger)
    requires Layered(g, rank)
  {
    && (forall i :: 0 <= i < |agenda| ==>
          Emitted(g, s, l, agenda[i].edge) && agenda[i].edge !in l.delivered
              && agenda[i].status == Due(g, beh, rank, agenda[i].edge))
    && (forall i, j :: 0 <= i < j < |agenda| ==> agenda[i].edge != agenda[j].edge)
    && (forall e :: e in l.delivered ==> Emitted(g, s, l, e))
    && (forall e: nat :: Emitted(g, s, l, e) && e !in l.delivered ==> OnAgenda(agenda, e))
  }

  /** An open node holds exactly the tokens delivered to it, with their due status; a resolved one holds none. */
  ghost predicate TableOk(g: Graph, beh: Behaviour, rank: map<string, nat>, s: State, l: Ledger, t: string)
    requires Layered(g, rank)
  {
    if Resolved(s, l, t) then s.Tok(t) == map[]
    else HoldsDelivered(g, beh, rank, s.Tok(t), l.delivered, t)
  }

  ghost predicate HoldsDelivered(g: Graph, beh: Behaviour, rank: map<string, nat>, tok: map<nat, Status>,
                                 delivered: set<nat>, t: string)
    requires Layered(g, rank)
  {
    && (forall e :: e in tok ==> g.Gates(e, t) && e in delivered && tok[e] == Due(g, beh, rank, e))
    && (forall e: nat :: g.Gates(e, t) && e in delivered ==> e in tok)
  }

  ghost predicate TokensOk(g: Graph, beh: Behaviour, rank: map<string, nat>, s: State, l: Ledger)
    requires Layered(g, rank)
  {
    forall t :: TableOk(g, beh, rank, s, l, t)
  }

  /** A node other than START is resolved exactly when all its in-edges have delivered. */
  ghost predicate BarrierOk(g: Graph, s: State, l: Ledger) {
    && (forall t, e: nat :: g.Gates(e, t) && t != g.start && Resolved(s, l, t) ==> e in l.delivered)
    && (forall t :: g.ForwardIn(t) != [] && !Resolved(s, l, t) ==> exists e: nat :: g.Gates(e, t) && e !in l.delivered)
  }

  ghost predicate FatesOk(g: Graph, beh: Behaviour, rank: map<string, nat>, s: State, l: Ledger)
    requires Layered(g, rank)
  {
    && l.sent <= l.completed <= l.ready.Keys <= rank.Keys && s.dead <= rank.Keys && g.start in l.ready
    && (forall n :: n in l.ready ==> n !in s.dead && Fate(g, beh, rank, n) == Some(l.ready[n]))
    && (forall n :: n in s.dead ==> Fate(g, beh, rank, n) == None)
    && (forall n :: n in l.sent ==> s.Output(n) == beh(n, l.ready[n]).data)
  }

  ghost predicate Inv(g: Graph, beh: Behaviour, rank: map<string, nat>, s: State,
                      agenda: seq<Item>, l: Ledger)
  {
    && Layered(g, rank)
    && AgendaOk(g, beh, rank, s, agenda, l) && TokensOk(g, beh, rank, s, l) && BarrierOk(g, s, l)
    && FatesOk(g, beh, rank, s, l)
  }

  lemma {:induction false} IndicesAgree(n: nat, p: nat -> bool, q: nat -> bool)
    requires forall e: nat :: e < n ==> p(e) == q(e)
    ensures Indices(n, p) == Indices(n, q)
  {
    if n > 0 {
      IndicesAgree(n - 1, p, q);
    }
  }

  /** The LIVE tokens of a saturated node sit on the edges that carry. */
  lemma LiveSourcesCarry(g: Graph, beh: Behaviour, rank: map<string, nat>, tok: map<nat, Status>, n: string)
    requires Layered(g, rank)
    requires forall e: nat :: g.Gates(e, n) ==> e in tok && tok[e] == Due(g, beh, rank, e)
    ensures LiveSources(g, tok, n) == CarryingInto(g, beh, rank, n)
  {
    IndicesAgree(|g.edges|, (e: nat) => g.Gates(e, n) && e in tok && tok[e] == Live,
                 (e: nat) => g.Gates(e, n) && Carries(g, beh, rank, e));
  }

  /** Merging recorded outputs merges the fates. */
  lemma {:induction false} MergeIsFate(g: Graph, beh: Behaviour, rank: map<string, nat>,
                                       s: State, l: Ledger, n: string, es: seq<nat>)
    requires Layered(g, rank) && FatesOk(g, beh, rank, s, l)
    requires forall i :: 0 <= i < |es| ==> g.Gates(es[i], n) && Carries(g, beh, rank, es[i]) && Emitted(g, s, l, es[i])
    ensures InRange(g, es)
    ensures Merge(g, s, es) == MergeFates(g, beh, rank, n, es)
  {
    if es != [] {
      var last := es[|es| - 1];
      assert g.Gates(last, n) && Carries(g, beh, rank, last) && Emitted(g, s, l, last);
      MergeIsFate(g, beh, rank, s, l, n, es[..|es| - 1]);
    }
  }

  /** The ledger entry a delivery makes. */
  ghost function Deliver(l: Ledger, e: nat): Ledger {
    l.(delivered := l.delivered + {e})
  }

  /** The head of the agenda goes to a node that is not resolved yet, and is the missing token there. */
  lemma HeadIsOpen(g: Graph, beh: Behaviour, rank: map<string, nat>, s: State,
                   agenda: seq<Item>, l: Ledger)
    requires Inv(g, beh, rank, s, agenda, l) && agenda != []
    ensures var e := agenda[0].edge;
            && e < |g.edges| && e !in l.delivered && g.Gates(e, g.edges[e].target)
            && !Resolved(s, l, g.edges[e].target) && g.edges[e].target != g.start && g.edges[e].target in rank
            && agenda[0].status == Due(g, beh, rank, e) && Emitted(g, s, l, e)
            && forall i :: 1 <= i < |agenda| ==> agenda[i].edge != e
  {
    var e := agenda[0].edge;
    assert Emitted(g, s, l, agenda[0].edge);
    assert g.Gates(e, g.edges[e].target);
  }

  /** With the head delivered, the table of its target holds what the ledger says. */
  lemma HeadTokens(g: Graph, beh: Behaviour, rank: map<string, nat>, s: State,
                   agenda: seq<Item>, l: Ledger)
    requires Inv(g, beh, rank, s, agenda, l) && agenda != [] && agenda[0].edge < |g.edges|
    ensures var e := agenda[0].edge;
            var t := g.edges[e].target;
            HoldsDelivered(g, beh, rank, PutToken(g, s, agenda[0]).Tok(t), l.delivered + {e}, t)
  {
    hide Fate, Carries, Due, AgendaOk, BarrierOk, FatesOk;
    HeadIsOpen(g, beh, rank, s, agenda, l);
    assert TableOk(g, beh, rank, s, l, g.edges[agenda[0].edge].target);
  }

  /** The agenda without its head accounts for the ledger with the head. */
  lemma AgendaTail(g: Graph, beh: Behaviour, rank: map<string, nat>, s: State,
                   agenda: seq<Item>, l: Ledger)
    requires Inv(g, beh, rank, s, agenda, l) && agenda != []
    ensures AgendaOk(g, beh, rank, s, agenda[1..], Deliver(l, agenda[0].edge))
  {
    HeadIsOpen(g, beh, rank, s, agenda, l);
    var e, l' := agenda[0].edge, Deliver(l, agenda[0].edge);
    forall f: nat | Emitted(g, s, l', f) && f !in l'.delivered
      ensures OnAgenda(agenda[1..], f)
    {
      assert OnAgenda(agenda, f);
      var i :| 0 <= i < |agenda| && agenda[i].edge == f;
      assert agenda[1..][i - 1].edge == f;
    }
    forall i | 0 <= i < |agenda[1..]|
      ensures Emitted(g, s, l', agenda[1..][i].edge) && agenda[1..][i].edge !in l'.delivered
      ensures agenda[1..][i].status == Due(g, beh, rank, agenda[1..][i].edge)
    {
      assert agenda[1..][i] == agenda[i + 1];
      assert Emitted(g, s, l, agenda[i + 1].edge);
    }
  }

  /** The tables of other nodes are untouched, so the ledger stays true if it is true of the target. */
  lemma TablesAfter(g: Graph, beh: Behaviour, rank: map<string, nat>, s: State,
                    agenda: seq<Item>, l: Ledger, s': State, l': Ledger, t: string)
    requires Inv(g, beh, rank, s, agenda, l) && agenda != []
    requires agenda[0].edge < |g.edges| && t == g.edges[agenda[0].edge].target
    requires l'.delivered == l.delivered + {agenda[0].edge}
    requires forall u :: u != t ==> s'.Tok(u) == s.Tok(u) && (Resolved(s', l', u) <==> Resolved(s, l, u))
    requires if Resolved(s', l', t) then s'.Tok(t) == map[] else s'.Tok(t) == PutToken(g, s, agenda[0]).Tok(t)
    ensures TokensOk(g, beh, rank, s', l')
  {
    hide Fate, Carries, Due, AgendaOk, BarrierOk, FatesOk, PutToken, Resolved;
    HeadTokens(g, beh, rank, s, agenda, l);
    forall u ensures TableOk(g, beh, rank, s', l', u) {
      assert TableOk(g, beh, rank, s, l, u);
      assert u != t ==> !g.Gates(agenda[0].edge, u);
    }
  }

  lemma BarrierAfter(g: Graph, beh: Behaviour, rank: map<string, nat>, s: State,
                     agenda: seq<Item>, l: Ledger, s': State, l': Ledger, t: string)
    requires Inv(g, beh, rank, s, agenda, l) && agenda != []
    requires agenda[0].edge < |g.edges| && t == g.edges[agenda[0].edge].target
    requires l'.delivered == l.delivered + {agenda[0].edge}
    requires forall u :: u != t ==> (Resolved(s', l', u) <==> Resolved(s, l, u))
    requires Resolved(s', l', t) <==> forall e: nat :: g.Gates(e, t) ==> e in l'.delivered
    ensures BarrierOk(g, s', l')
  {
    hide Fate, Carries, Due, AgendaOk, TokensOk, FatesOk, PutToken;
    forall u | g.ForwardIn(u) != [] && !Resolved(s', l', u)
      ensures exists f: nat :: g.Gates(f, u) && f !in l'.delivered
    {
      if u != t {
        assert !Resolved(s, l, u);
        var f: nat :| g.Gates(f, u) && f !in l.delivered;
        assert g.Gates(f, u) && f !in l'.delivered;
      }
    }
  }

  /** A token that does not complete the barrier. */
  lemma DeliverWaits(g: Graph, beh: Behaviour, rank: map<string, nat>, s: State,
                     agenda: seq<Item>, l: Ledger)
    requires Inv(g, beh, rank, s, agenda, l) && agenda != [] && agenda[0].edge < |g.edges|
    requires !Saturated(g, PutToken(g, s, agenda[0]), g.edges[agenda[0].edge].target)
    ensures Inv(g, beh, rank, PutToken(g, s, agenda[0]), agenda[1..], Deliver(l, agenda[0].edge))
  {
    hide Fate, Carries, Due, AgendaOk, TokensOk, BarrierOk, FatesOk, Merge, LiveSources;
    HeadIsOpen(g, beh, rank, s, agenda, l);
    HeadTokens(g, beh, rank, s, agenda, l);
    AgendaTail(g, beh, rank, s, agenda, l);
    var e := agenda[0].edge;
    var t := g.edges[e].target;
    var s', l' := PutToken(g, s, agenda[0]), Deliver(l, e);
    BarrierIsFullness(g, s'.Tok(t), t);
    assert g.ForwardIn(t) != [] by { assert e in g.ForwardIn(t); }
    TablesAfter(g, beh, rank, s, agenda, l, s', l', t);
    BarrierAfter(g, beh, rank, s, agenda, l, s', l', t);
    AgendaSameEmitters(g, beh, rank, s, s', agenda[1..], l', l');
    FatesDies(g, beh, rank, s, l, s', l', {});
  }

  lemma AgendaSameEmitters(g: Graph, beh: Behaviour, rank: map<string, nat>, s: State, s': State, agenda: seq<Item>,
                           l: Ledger, l': Ledger)
    requires Layered(g, rank) && AgendaOk(g, beh, rank, s, agenda, l)
    requires s'.dead == s.dead && l'.sent == l.sent && l'.delivered == l.delivered
    ensures AgendaOk(g, beh, rank, s', agenda, l')
  {
    hide Fate, Carries, Due;
    forall e: nat | Emitted(g, s', l', e) && e !in l'.delivered
      ensures OnAgenda(agenda, e)
    {
      assert Emitted(g, s, l, e);
    }
    forall i | 0 <= i < |agenda|
      ensures Emitted(g, s', l', agenda[i].edge)
    {
      assert Emitted(g, s, l, agenda[i].edge);
    }
  }

  lemma FatesRuns(g: Graph, beh: Behaviour, rank: map<string, nat>, s: State, l: Ledger,
                  s': State, l': Ledger, t: string, input: Payload)
    requires Layered(g, rank) && FatesOk(g, beh, rank, s, l)
    requires s'.outputs == s.outputs && s'.dead == s.dead && l'.completed == l.completed && l'.sent == l.sent
             && l'.ready == l.ready[t := input]
    requires !Resolved(s, l, t) && Fate(g, beh, rank, t) == Some(input) && t in rank
    ensures FatesOk(g, beh, rank, s', l')
  {
    hide Fate;
    assert forall n :: s'.Output(n) == s.Output(n);
  }

  lemma FatesDies(g: Graph, beh: Behaviour, rank: map<string, nat>, s: State, l: Ledger,
                  s': State, l': Ledger, died: set<string>)
    requires Layered(g, rank) && FatesOk(g, beh, rank, s, l)
    requires s'.outputs == s.outputs && s'.dead == s.dead + died
    requires l'.completed == l.completed && l'.sent == l.sent && l'.ready == l.ready
    requires forall t :: t in died ==> !Resolved(s, l, t) && Fate(g, beh, rank, t) == None && t in rank
    ensures FatesOk(g, beh, rank, s', l')
  {
    hide Fate;
    assert forall n :: s'.Output(n) == s.Output(n);
  }

  /** What a completed barrier leads to, field by field. */
  lemma FireSettles(g: Graph, s: State, it: Item)
    requires it.edge < |g.edges| && g.edges[it.edge].target !in s.dead
    requires Saturated(g, PutToken(g, s, it), g.edges[it.edge].target)
    ensures var t, put := g.edges[it.edge].target, PutToken(g, s, it);
            var live, (s', ready, owed) := LiveSources(g, put.Tok(t), t), Fire(g, put, t);
            && s'.outputs == s.outputs && s'.Tok(t) == map[] && (forall u :: u != t ==> s'.Tok(u) == s.Tok(u))
            && if live == [] then ready == [] && s'.dead == s.dead + {t} && owed == Items(g.ForwardOut(t), Dead)
               else && ready == [ReadyNode(t, Merge(g, put.(tokens := put.tokens[t := map[]]), live))]
                    && s'.dead == s.dead && owed == []
  {
    hide Merge, LiveSources, Graph.ForwardIn, Graph.ForwardOut, Items;
  }

  /** The completed barrier with a LIVE token: the target becomes ready on its fated input. */
  lemma DeliverRuns(g: Graph, beh: Behaviour, rank: map<string, nat>, s: State,
                    agenda: seq<Item>, l: Ledger)
    returns (l': Ledger)
    requires Inv(g, beh, rank, s, agenda, l) && agenda != [] && agenda[0].edge < |g.edges|
    requires var t, s' := g.edges[agenda[0].edge].target, PutToken(g, s, agenda[0]);
             Saturated(g, s', t) && LiveSources(g, s'.Tok(t), t) != []
    ensures var (s', ready, owed) := Fire(g, PutToken(g, s, agenda[0]), g.edges[agenda[0].edge].target);
            && |ready| == 1 && ready[0].nodeId !in l.ready && owed == []
            && l' == Deliver(l, agenda[0].edge).(ready := l.ready[ready[0].nodeId := ready[0].inputData])
            && Inv(g, beh, rank, s', agenda[1..], l')
  {
    hide Fate, Carries, Due, AgendaOk, TokensOk, BarrierOk, FatesOk, Merge, LiveSources, Fire;
    HeadIsOpen(g, beh, rank, s, agenda, l);
    HeadTokens(g, beh, rank, s, agenda, l);
    AgendaTail(g, beh, rank, s, agenda, l);
    var e := agenda[0].edge;
    var t, put := g.edges[e].target, PutToken(g, s, agenda[0]);
    var (s', ready, owed) := Fire(g, put, t);
    FireSettles(g, s, agenda[0]);
    l' := Deliver(l, e).(ready := l.ready[t := ready[0].inputData]);
    BarrierIsFullness(g, put.Tok(t), t);
    var live := LiveSources(g, put.Tok(t), t);
    FiredIsFated(g, beh, rank, s, agenda, l);
    assert s'.Tok(t) == map[] && Resolved(s', l', t);
    TablesAfter(g, beh, rank, s, agenda, l, s', l', t);
    BarrierAfter(g, beh, rank, s, agenda, l, s', l', t);
    AgendaSameEmitters(g, beh, rank, s, s', agenda[1..], Deliver(l, e), l');
    FatesRuns(g, beh, rank, s, l, s', l', t, ready[0].inputData);
  }

  lemma FiredIsFated(g: Graph, beh: Behaviour, rank: map<string, nat>, s: State,
                     agenda: seq<Item>, l: Ledger)
    requires Inv(g, beh, rank, s, agenda, l) && agenda != [] && agenda[0].edge < |g.edges|
    requires Saturated(g, PutToken(g, s, agenda[0]), g.edges[agenda[0].edge].target)
    ensures var t := g.edges[agenda[0].edge].target;
            var s' := PutToken(g, s, agenda[0]);
            var cleared := s'.(tokens := s'.tokens[t := map[]]);
            var live := LiveSources(g, s'.Tok(t), t);
            Fate(g, beh, rank, t) == if live == [] then None else Some(Merge(g, cleared, live))
  {
    hide Carries, Due, AgendaOk, TokensOk, BarrierOk, FatesOk, Merge, MergeFates, LiveSources, CarryingInto;
    HeadIsOpen(g, beh, rank, s, agenda, l);
    HeadTokens(g, beh, rank, s, agenda, l);
    var e := agenda[0].edge;
    var t, put := g.edges[e].target, PutToken(g, s, agenda[0]);
    var cleared := put.(tokens := put.tokens[t := map[]]);
    BarrierIsFullness(g, put.Tok(t), t);
    LiveSourcesCarry(g, beh, rank, put.Tok(t), t);
    var live := LiveSources(g, put.Tok(t), t);
    FatesDies(g, beh, rank, s, l, cleared, l, {});
    EmittedOnTokens(g, beh, rank, s, agenda, l, live);
    MergeIsFate(g, beh, rank, cleared, l, t, live);
  }

  /** Tokens come from sources that completed or died. */
  lemma EmittedOnTokens(g: Graph, beh: Behaviour, rank: map<string, nat>, s: State,
                        agenda: seq<Item>, l: Ledger, live: seq<nat>)
    requires Inv(g, beh, rank, s, agenda, l) && agenda != [] && agenda[0].edge < |g.edges|
    requires live == LiveSources(g, PutToken(g, s, agenda[0]).Tok(g.edges[agenda[0].edge].target),
                                 g.edges[agenda[0].edge].target)
    ensures forall i :: 0 <= i < |live| ==> Emitted(g, s, l, live[i])
  {
    HeadTokens(g, beh, rank, s, agenda, l);
    HeadIsOpen(g, beh, rank, s, agenda, l);
    hide Carries, Due, TokensOk, BarrierOk, FatesOk, LiveSources;
    forall i | 0 <= i < |live|
      ensures Emitted(g, s, l, live[i])
    {
      assert live[i] in live;
    }
  }

  /** The completed barrier without a LIVE token: the target dies and owes DEAD on all its out-edges. */
  lemma DeliverDies(g: Graph, beh: Behaviour, rank: map<string, nat>, s: State,
                    agenda: seq<Item>, l: Ledger)
    requires Inv(g, beh, rank, s, agenda, l) && agenda != [] && agenda[0].edge < |g.edges|
    requires var t, s' := g.edges[agenda[0].edge].target, PutToken(g, s, agenda[0]);
             Saturated(g, s', t) && LiveSources(g, s'.Tok(t), t) == []
    ensures var (s', ready, owed) := Fire(g, PutToken(g, s, agenda[0]), g.edges[agenda[0].edge].target);
            && ready == []
            && Inv(g, beh, rank, s', owed + agenda[1..], Deliver(l, agenda[0].edge))
  {
    hide Fate, Carries, Due, AgendaOk, TokensOk, BarrierOk, FatesOk, Merge, LiveSources, Fire, Graph.ForwardIn,
         Graph.ForwardOut, Items;
    HeadIsOpen(g, beh, rank, s, agenda, l);
    HeadTokens(g, beh, rank, s, agenda, l);
    AgendaTail(g, beh, rank, s, agenda, l);
    var e := agenda[0].edge;
    var t, put := g.edges[e].target, PutToken(g, s, agenda[0]);
    var (s', ready, owed) := Fire(g, put, t);
    var l' := Deliver(l, e);
    BarrierIsFullness(g, put.Tok(t), t);
    FiredIsFated(g, beh, rank, s, agenda, l);
    FireSettles(g, s, agenda[0]);
    assert s'.Tok(t) == map[] && Resolved(s', l', t);
    TablesAfter(g, beh, rank, s, agenda, l, s', l', t);
    BarrierAfter(g, beh, rank, s, agenda, l, s', l', t);
    CompletedAreReady(g, beh, rank, s, l);
    OwedItems(g, t);
    DeadCarryNothing(g, beh, rank, t);
    AgendaGrows(g, beh, rank, s, s', owed, agenda[1..], l', l', t);
    FatesDies(g, beh, rank, s, l, s', l', {t});
  }

  /** A node without fate sends DEAD on every out-edge. */
  lemma DeadCarryNothing(g: Graph, beh: Behaviour, rank: map<string, nat>, t: string)
    requires Layered(g, rank) && Fate(g, beh, rank, t) == None
    ensures forall e: nat :: g.Leaves(e, t) ==> Due(g, beh, rank, e) == Dead
  {
  }

  lemma CompletedAreReady(g: Graph, beh: Behaviour, rank: map<string, nat>, s: State, l: Ledger)
    requires Layered(g, rank) && FatesOk(g, beh, rank, s, l)
    ensures l.sent <= l.completed <= l.ready.Keys && l.ready.Keys !! s.dead && g.start in l.ready
  {
  }

  /** DEAD deliveries of a newly dead node. */
  lemma OwedItems(g: Graph, t: string)
    ensures var owed := Items(g.ForwardOut(t), Dead);
            && (forall i :: 0 <= i < |owed|
                            ==> g.Leaves(owed[i].edge, t) && owed[i].edge !in g.back && owed[i].status == Dead)
            && (forall i, j :: 0 <= i < j < |owed| ==> owed[i].edge != owed[j].edge)
            && (forall e: nat :: g.Leaves(e, t) && e !in g.back ==> OnAgenda(owed, e))
  {
    var out := g.ForwardOut(t);
    var owed := Items(out, Dead);
    forall i | 0 <= i < |owed|
      ensures g.Leaves(owed[i].edge, t) && owed[i].edge !in g.back && owed[i].status == Dead
    {
      assert out[i] in out;
    }
    forall i, j | 0 <= i < j < |owed|
      ensures owed[i].edge != owed[j].edge
    {
      assert out[i] < out[j];
    }
    forall e: nat | g.Leaves(e, t) && e !in g.back
      ensures OnAgenda(owed, e)
    {
      assert e in out;
      var i :| 0 <= i < |out| && out[i] == e;
      assert owed[i].edge == e;
    }
  }

  lemma OnAgendaOfSum(a: seq<Item>, b: seq<Item>, e: nat)
    requires OnAgenda(a, e) || OnAgenda(b, e)
    ensures OnAgenda(a + b, e)
  {
    if OnAgenda(a, e) {
      var i :| 0 <= i < |a| && a[i].edge == e;
      assert (a + b)[i].edge == e;
    } else {
      var i :| 0 <= i < |b| && b[i].edge == e;
      assert (a + b)[|a| + i].edge == e;
    }
  }

  /** Deliveries of a node that had emitted nothing extend the agenda. */
  lemma AgendaGrows(g: Graph, beh: Behaviour, rank: map<string, nat>, s: State, s': State, owed: seq<Item>,
                    agenda: seq<Item>, l: Ledger, l': Ledger, t: string)
    requires Layered(g, rank) && AgendaOk(g, beh, rank, s, agenda, l)
    requires t !in s.dead && t !in l.sent && l'.delivered == l.delivered
    requires forall n :: (n in l'.sent || n in s'.dead) <==> (n in l.sent || n in s.dead || n == t)
    requires forall i :: 0 <= i < |owed|
                         ==> g.Leaves(owed[i].edge, t) && owed[i].status == Due(g, beh, rank, owed[i].edge)
    requires forall i, j :: 0 <= i < j < |owed| ==> owed[i].edge != owed[j].edge
    requires forall e: nat :: g.Leaves(e, t) ==> OnAgenda(owed, e)
    ensures AgendaOk(g, beh, rank, s', owed + agenda, l')
  {
    hide Fate, Carries, Due;
    var all := owed + agenda;
    forall e: nat | Emitted(g, s', l', e) && e !in l'.delivered
      ensures OnAgenda(all, e)
    {
      if g.edges[e].source != t {
        assert Emitted(g, s, l, e);
      } else {
        assert g.Leaves(e, t);
      }
      OnAgendaOfSum(owed, agenda, e);
    }
    AgendaGrowsSoundly(g, beh, rank, s, s', owed, agenda, l, l', t);
  }

  lemma AgendaGrowsSoundly(g: Graph, beh: Behaviour, rank: map<string, nat>, s: State, s': State, owed: seq<Item>,
                           agenda: seq<Item>, l: Ledger, l': Ledger, t: string)
    requires Layered(g, rank) && AgendaOk(g, beh, rank, s, agenda, l)
    requires t !in s.dead && t !in l.sent && l'.delivered == l.delivered
    requires forall n :: (n in l'.sent || n in s'.dead) <==> (n in l.sent || n in s.dead || n == t)
    requires forall i :: 0 <= i < |owed|
                         ==> g.Leaves(owed[i].edge, t) && owed[i].status == Due(g, beh, rank, owed[i].edge)
    requires forall i, j :: 0 <= i < j < |owed| ==> owed[i].edge != owed[j].edge
    ensures var all := owed + agenda;
            && (forall e :: e in l'.delivered ==> Emitted(g, s', l', e))
            && (forall i, j :: 0 <= i < j < |all| ==> all[i].edge != all[j].edge)
            && (forall i :: 0 <= i < |all| ==>
                  Emitted(g, s', l', all[i].edge) && all[i].edge !in l'.delivered
                      && all[i].status == Due(g, beh, rank, all[i].edge))
  {
    hide Fate, Carries, Due, OnAgenda;
    var all := owed + agenda;
    forall e | e in l'.delivered
      ensures Emitted(g, s', l', e)
    {
      assert Emitted(g, s, l, e);
    }
    forall i | 0 <= i < |all|
      ensures Emitted(g, s', l', all[i].edge) && all[i].edge !in l'.delivered
              && all[i].status == Due(g, beh, rank, all[i].edge)
      ensures i < |owed| <==> g.edges[all[i].edge].source == t
    {
      if i < |owed| {
        assert all[i] == owed[i] && g.Leaves(owed[i].edge, t);
        assert !Emitted(g, s, l, owed[i].edge);
      } else {
        assert all[i] == agenda[i - |owed|];
        assert Emitted(g, s, l, agenda[i - |owed|].edge);
      }
    }
  }

  /** One agenda entry keeps the invariant; a run it triggers is entered in the ledger. */
  lemma StepKeeps(g: Graph, beh: Behaviour, rank: map<string, nat>, s: State, agenda: seq<Item>,
                  l: Ledger)
    returns (l': Ledger)
    requires Inv(g, beh, rank, s, agenda, l) && agenda != [] && agenda[0].edge < |g.edges|
    ensures var (s', ready, owed) := Step(g, s, agenda[0]);
            && Inv(g, beh, rank, s', owed + agenda[1..], l')
            && l'.completed == l.completed && l'.sent == l.sent
            && (ready == [] ==> l'.ready == l.ready)
            && (ready != [] ==> |ready| == 1 && ready[0].nodeId !in l.ready
                                && l'.ready == l.ready[ready[0].nodeId := ready[0].inputData])
  {
    hide Fate, Carries, Due, AgendaOk, TokensOk, BarrierOk, FatesOk, Merge, LiveSources, Inv;
    InvIsLayered(g, beh, rank, s, agenda, l);
    var put, t := PutToken(g, s, agenda[0]), g.edges[agenda[0].edge].target;
    assert [] + agenda[1..] == agenda[1..];
    if !Saturated(g, put, t) {
      l' := Deliver(l, agenda[0].edge);
      DeliverWaits(g, beh, rank, s, agenda, l);
    } else if LiveSources(g, put.Tok(t), t) != [] {
      l' := DeliverRuns(g, beh, rank, s, agenda, l);
    } else {
      l' := Deliver(l, agenda[0].edge);
      DeliverDies(g, beh, rank, s, agenda, l);
    }
  }

  lemma InvIsLayered(g: Graph, beh: Behaviour, rank: map<string, nat>, s: State,
                     agenda: seq<Item>, l: Ledger)
    requires Inv(g, beh, rank, s, agenda, l)
    ensures Layered(g, rank) && ValidItems(g, agenda)
  {
    assert forall i :: 0 <= i < |agenda| ==> Emitted(g, s, l, agenda[i].edge);
  }

  /** The nodes of rs, each once, are what `after` has and `before` has not. */
  ghost predicate Entered(rs: seq<ReadyNode>, before: map<string, Payload>, after: map<string, Payload>) {
    && (forall n :: n in before ==> n in after && after[n] == before[n])
    && (forall i :: 0 <= i < |rs| ==> rs[i].nodeId !in before && rs[i].nodeId in after
                                      && after[rs[i].nodeId] == rs[i].inputData)
    && (forall i, j :: 0 <= i < j < |rs| ==> rs[i].nodeId != rs[j].nodeId)
    && (forall n :: n in after && n !in before ==> exists i :: 0 <= i < |rs| && rs[i].nodeId == n)
  }

  lemma EnteredOne(r: ReadyNode, rs: seq<ReadyNode>, before: map<string, Payload>, mid: map<string, Payload>,
                   after: map<string, Payload>)
    requires r.nodeId !in before && mid == before[r.nodeId := r.inputData] && Entered(rs, mid, after)
    ensures Entered([r] + rs, before, after)
  {
    var all := [r] + rs;
    assert forall i :: 0 < i < |all| ==> all[i] == rs[i - 1];
    forall n | n in after && n !in before
      ensures exists i :: 0 <= i < |all| && all[i].nodeId == n
    {
      if n == r.nodeId {
        assert all[0].nodeId == n;
      } else {
        var i :| 0 <= i < |rs| && rs[i].nodeId == n;
        assert all[i + 1].nodeId == n;
      }
    }
  }

  /** Working off the whole agenda. */
  lemma {:induction false} ExecKeeps(g: Graph, beh: Behaviour, rank: map<string, nat>, s: State,
                                     agenda: seq<Item>, l: Ledger)
    returns (l': Ledger)
    requires Inv(g, beh, rank, s, agenda, l) && ValidItems(g, agenda)
    ensures Inv(g, beh, rank, Exec(g, s, agenda).0, [], l')
    ensures l'.completed == l.completed && l'.sent == l.sent && Entered(Exec(g, s, agenda).1, l.ready, l'.ready)
    decreases g.Targets() - s.dead, |agenda|
  {
    hide Inv, Step, Entered;
    if agenda == [] {
      l' := l;
      EnteredNone(l.ready);
    } else {
      var (s1, ready, owed) := Step(g, s, agenda[0]);
      var l1 := StepKeeps(g, beh, rank, s, agenda, l);
      InvIsLayered(g, beh, rank, s1, owed + agenda[1..], l1);
      l' := ExecKeeps(g, beh, rank, s1, owed + agenda[1..], l1);
      var more := Exec(g, s1, owed + agenda[1..]).1;
      if ready == [] {
        assert ready + more == more;
      } else {
        assert ready == [ready[0]];
        EnteredOne(ready[0], more, l.ready, l1.ready, l'.ready);
      }
    }
  }

  lemma EnteredNone(m: map<string, Payload>)
    ensures Entered([], m, m)
  {
  }

  /** The list holds the nodes of `nodes`, each once. */
  ghost predicate ListsOnce(rs: seq<ReadyNode>, nodes: set<string>) {
    && (forall i :: 0 <= i < |rs| ==> rs[i].nodeId in nodes)
    && (forall i, j :: 0 <= i < j < |rs| ==> rs[i].nodeId != rs[j].nodeId)
    && (forall n :: n in nodes ==> Listed(rs, n))
  }

  ghost predicate Listed(rs: seq<ReadyNode>, n: string) {
    exists i :: 0 <= i < |rs| && rs[i].nodeId == n
  }

  ghost predicate OnInputs(rs: seq<ReadyNode>, ready: map<string, Payload>) {
    forall i :: 0 <= i < |rs| ==> rs[i].nodeId in ready && rs[i].inputData == ready[rs[i].nodeId]
  }

  /** The run's two lists and the ledger tell the same story: nobody runs twice. */
  ghost predicate Books(r: Run, l: Ledger) {
    && ListsOnce(r.pending, l.ready.Keys - l.completed) && OnInputs(r.pending, l.ready)
    && ListsOnce(r.done, l.completed) && OnInputs(r.done, l.ready)
  }

  /** The ledger once the i-th pending node is done and its own deliveries are still to be made. */
  ghost function Done(l: Ledger, n: string): Ledger {
    l.(completed := l.completed + {n}, sent := l.sent + {n})
  }

  /** The ledger once a terminal node is done, of which the scheduler hears nothing. */
  ghost function Over(l: Ledger, n: string): Ledger {
    l.(completed := l.completed + {n})
  }

  lemma ListsWithout(rs: seq<ReadyNode>, nodes: set<string>, i: nat)
    requires ListsOnce(rs, nodes) && i < |rs|
    ensures ListsOnce(rs[..i] + rs[i + 1..], nodes - {rs[i].nodeId})
  {
    var ps := rs[..i] + rs[i + 1..];
    assert forall k :: 0 <= k < |ps| ==> ps[k] == rs[if k < i then k else k + 1];
    forall n | n in nodes - {rs[i].nodeId}
      ensures Listed(ps, n)
    {
      var k :| 0 <= k < |rs| && rs[k].nodeId == n;
      assert ps[if k < i then k else k - 1].nodeId == n;
    }
  }

  lemma ListsSum(a: seq<ReadyNode>, b: seq<ReadyNode>, left: set<string>, right: set<string>)
    requires ListsOnce(a, left) && ListsOnce(b, right) && left !! right
    ensures ListsOnce(a + b, left + right)
  {
    var ps := a + b;
    forall n | n in left + right
      ensures Listed(ps, n)
    {
      if n in left {
        var k :| 0 <= k < |a| && a[k].nodeId == n;
        assert ps[k].nodeId == n;
      } else {
        var k :| 0 <= k < |b| && b[k].nodeId == n;
        assert ps[|a| + k].nodeId == n;
      }
    }
  }

  lemma EnteredLists(rs: seq<ReadyNode>, before: map<string, Payload>, after: map<string, Payload>)
    requires Entered(rs, before, after)
    ensures ListsOnce(rs, after.Keys - before.Keys)
  {
  }

  lemma ListsOne(r: ReadyNode)
    ensures ListsOnce([r], {r.nodeId})
  {
    assert [r][0] == r;
  }

  lemma ListsMember(rs: seq<ReadyNode>, nodes: set<string>, i: nat)
    requires ListsOnce(rs, nodes) && i < |rs|
    ensures rs[i].nodeId in nodes
  {
  }

  lemma BooksFinish(r: Run, i: nat, l: Ledger, more: seq<ReadyNode>, l': Ledger, s': State)
    requires Books(r, l) && i < |r.pending|
    requires l'.completed == l.completed + {r.pending[i].nodeId} && Entered(more, l.ready, l'.ready)
    requires l.completed <= l.ready.Keys
    ensures Books(Run(s', r.pending[..i] + r.pending[i + 1..] + more, r.done + [r.pending[i]]), l')
  {
    hide ListsOnce;
    var node := r.pending[i];
    var rest := r.pending[..i] + r.pending[i + 1..];
    var novel := l'.ready.Keys - l.ready.Keys;
    EnteredLists(more, l.ready, l'.ready);
    ListsOne(node);
    ListsMember(r.pending, l.ready.Keys - l.completed, i);
    ListsWithout(r.pending, l.ready.Keys - l.completed, i);
    ListsSum(rest, more, l.ready.Keys - l.completed - {node.nodeId}, novel);
    ListsSum(r.done, [node], l.completed, {node.nodeId});
    assert l'.ready.Keys - l'.completed == l.ready.Keys - l.completed - {node.nodeId} + novel;
    InputsWithout(r.pending, l.ready, i);
    InputsSum(rest, more, l'.ready);
    InputsSum(r.done, [node], l'.ready);
  }

  lemma InputsWithout(rs: seq<ReadyNode>, ready: map<string, Payload>, i: nat)
    requires OnInputs(rs, ready) && i < |rs|
    ensures OnInputs(rs[..i] + rs[i + 1..], ready)
  {
    var ps := rs[..i] + rs[i + 1..];
    assert forall k :: 0 <= k < |ps| ==> ps[k] == rs[if k < i then k else k + 1];
  }

  lemma InputsSum(a: seq<ReadyNode>, b: seq<ReadyNode>, ready: map<string, Payload>)
    requires OnInputs(a, ready) && OnInputs(b, ready)
    ensures OnInputs(a + b, ready)
  {
  }

  /** Completing a node that is not terminal puts exactly its own tokens on the agenda. */
  lemma CompleteOpensAgenda(g: Graph, beh: Behaviour, rank: map<string, nat>, s: State,
                            l: Ledger, n: string)
    requires Inv(g, beh, rank, s, [], l) && n in l.ready && n !in l.completed
    ensures var out := beh(n, l.ready[n]);
            Inv(g, beh, rank, s.(outputs := s.outputs[n := out.data]), CompleteAgenda(g, n, out.branch),
                Done(l, n))
  {
    hide AgendaOk, Due;
    var out := beh(n, l.ready[n]);
    var s1, l1, agenda := s.(outputs := s.outputs[n := out.data]), Done(l, n), CompleteAgenda(g, n, out.branch);
    CompleteAgendaShape(g, beh, rank, n, l.ready[n]);
    AgendaGrows(g, beh, rank, s, s1, agenda, [], l, l1, n);
    assert agenda + [] == agenda;
    TokensUnmoved(g, beh, rank, s, l, s1, l1);
    FatesComplete(g, beh, rank, s, l, n);
  }

  lemma FatesComplete(g: Graph, beh: Behaviour, rank: map<string, nat>, s: State, l: Ledger,
                      n: string)
    requires Layered(g, rank) && FatesOk(g, beh, rank, s, l) && n in l.ready
    ensures FatesOk(g, beh, rank, s.(outputs := s.outputs[n := beh(n, l.ready[n]).data]), Done(l, n))
    ensures FatesOk(g, beh, rank, s, Over(l, n))
  {
    hide Fate;
  }

  lemma TokensUnmoved(g: Graph, beh: Behaviour, rank: map<string, nat>, s: State, l: Ledger, s': State, l': Ledger)
    requires Layered(g, rank) && TokensOk(g, beh, rank, s, l) && BarrierOk(g, s, l)
    requires s'.tokens == s.tokens && s'.dead == s.dead && l'.ready == l.ready && l'.delivered == l.delivered
    ensures TokensOk(g, beh, rank, s', l') && BarrierOk(g, s', l')
  {
    hide HoldsDelivered;
    forall t ensures TableOk(g, beh, rank, s', l', t) {
      assert TableOk(g, beh, rank, s, l, t);
    }
    BarrierUnmoved(g, s, l, s', l');
  }

  lemma BarrierUnmoved(g: Graph, s: State, l: Ledger, s': State, l': Ledger)
    requires BarrierOk(g, s, l) && s'.dead == s.dead && l'.ready == l.ready && l'.delivered == l.delivered
    ensures BarrierOk(g, s', l')
  {
    assert forall t :: Resolved(s', l', t) <==> Resolved(s, l, t);
  }

  lemma CompleteAgendaShape(g: Graph, beh: Behaviour, rank: map<string, nat>, n: string, input: Payload)
    requires Layered(g, rank) && n in rank && Fate(g, beh, rank, n) == Some(input)
    ensures var agenda := CompleteAgenda(g, n, beh(n, input).branch);
            && (forall i :: 0 <= i < |agenda|
                            ==> g.Leaves(agenda[i].edge, n) && agenda[i].status == Due(g, beh, rank, agenda[i].edge))
            && (forall i, j :: 0 <= i < j < |agenda| ==> agenda[i].edge != agenda[j].edge)
            && (forall e: nat :: g.Leaves(e, n) ==> OnAgenda(agenda, e))
  {
    var branch := beh(n, input).branch;
    hide Fate, CompleteAgenda;
    assert !g.LoopsBack(n, branch);
    AgendaByPosition(g, n, branch);
    forall e: nat | g.Leaves(e, n) ensures OnAgenda(CompleteAgenda(g, n, branch), e) {
      AgendaCovers(g, n, branch, e);
    }
  }

  ghost predicate RunInv(g: Graph, terminals: set<string>, beh: Behaviour, rank: map<string, nat>, r: Run, l: Ledger) {
    Inv(g, beh, rank, r.s, [], l) && Books(r, l) && l.sent == l.completed - terminals
  }

  /** Any pending node may finish next, doing what `beh` says. */
  lemma FinishKeeps(g: Graph, terminals: set<string>, beh: Behaviour, rank: map<string, nat>, r: Run, i: nat, l: Ledger)
    returns (l': Ledger)
    requires RunInv(g, terminals, beh, rank, r, l) && i < |r.pending|
    ensures var node := r.pending[i];
            RunInv(g, terminals, beh, rank, FinishWith(g, terminals, r, i, beh(node.nodeId, node.inputData)), l')
    ensures |l'.completed| == |l.completed| + 1
  {
    hide Inv, Books, Exec, CompleteAgenda;
    var n := r.pending[i].nodeId;
    PendingIsReady(g, beh, rank, r, i, l);
    if n in terminals {
      l' := Over(l, n);
      TerminalCompletes(g, beh, rank, r.s, l, n);
      EnteredNone(l.ready);
      BooksFinish(r, i, l, [], l', r.s);
      assert r.pending[..i] + r.pending[i + 1..] + [] == r.pending[..i] + r.pending[i + 1..];
    } else {
      var out := beh(n, l.ready[n]);
      var s1, agenda := r.s.(outputs := r.s.outputs[n := out.data]), CompleteAgenda(g, n, out.branch);
      CompleteOpensAgenda(g, beh, rank, r.s, l, n);
      l' := ExecKeeps(g, beh, rank, s1, agenda, Done(l, n));
      BooksFinish(r, i, l, Exec(g, s1, agenda).1, l', Exec(g, s1, agenda).0);
    }
  }

  lemma PendingIsReady(g: Graph, beh: Behaviour, rank: map<string, nat>, r: Run, i: nat, l: Ledger)
    requires Inv(g, beh, rank, r.s, [], l) && Books(r, l) && i < |r.pending|
    ensures var n := r.pending[i].nodeId;
            && n in l.ready && n !in l.completed && l.sent <= l.completed <= l.ready.Keys
            && l.ready[n] == r.pending[i].inputData
  {
    hide AgendaOk, TokensOk, BarrierOk, Fate;
  }

  lemma TerminalCompletes(g: Graph, beh: Behaviour, rank: map<string, nat>, s: State, l: Ledger, n: string)
    requires Inv(g, beh, rank, s, [], l) && n in l.ready
    ensures Inv(g, beh, rank, s, [], Over(l, n))
  {
    hide Fate, Carries, Due;
    TokensUnmoved(g, beh, rank, s, l, s, Over(l, n));
    FatesComplete(g, beh, rank, s, l, n);
    AgendaSameEmitters(g, beh, rank, s, s, [], l, Over(l, n));
  }

  lemma BeginHolds(g: Graph, terminals: set<string>, beh: Behaviour, rank: map<string, nat>) returns (l: Ledger)
    requires Layered(g, rank)
    ensures RunInv(g, terminals, beh, rank, Begin(g), l) && l.completed == {}
  {
    l := Ledger(map[g.start := map[]], {}, {}, {});
    BeginBarrier(g, rank, l);
    BeginTokens(g, beh, rank, l);
    hide Carries, Due, BarrierOk, TokensOk;
    assert FatesOk(g, beh, rank, EMPTY_STATE, l);
    var r := Begin(g);
    assert r.pending[0].nodeId == g.start;
    assert ListsOnce(r.pending, l.ready.Keys - l.completed);
  }

  lemma BeginBarrier(g: Graph, rank: map<string, nat>, l: Ledger)
    requires Layered(g, rank) && l == Ledger(map[g.start := map[]], {}, {}, {})
    ensures BarrierOk(g, EMPTY_STATE, l)
  {
    forall t | g.ForwardIn(t) != [] && !Resolved(EMPTY_STATE, l, t)
      ensures exists e: nat :: g.Gates(e, t) && e !in l.delivered
    {
      var e := g.ForwardIn(t)[0];
      assert g.Gates(e, t);
    }
  }

  lemma BeginTokens(g: Graph, beh: Behaviour, rank: map<string, nat>, l: Ledger)
    requires Layered(g, rank) && l == Ledger(map[g.start := map[]], {}, {}, {})
    ensures TokensOk(g, beh, rank, EMPTY_STATE, l)
  {
    hide Fate, Carries, Due;
  }

  /** The two tell the same of the nodes that have completed. */
  ghost predicate Agree(beh: Behaviour, b: Behaviour, l: Ledger) {
    forall n :: n in l.completed && n in l.ready ==> beh(n, l.ready[n]) == b(n, l.ready[n])
  }

  /** What resolved a node are completions and deaths alone, so its fate is settled. */
  lemma {:induction false} FateSettled(g: Graph, beh: Behaviour, b: Behaviour, rank: map<string, nat>, s: State,
                                       l: Ledger, n: string)
    requires Inv(g, beh, rank, s, [], l) && Agree(beh, b, l) && Resolved(s, l, n)
    ensures Fate(g, b, rank, n) == Fate(g, beh, rank, n)
    decreases Height(rank, n), 2, 0
  {
    hide TokensOk, Agree, Carries;
    if n != g.start {
      forall e: nat | g.Gates(e, n)
        ensures Emitted(g, s, l, e) && Carries(g, b, rank, e) == Carries(g, beh, rank, e)
      {
        assert e in l.delivered;
        CarriesSettled(g, beh, b, rank, s, l, e);
      }
      IndicesAgree(|g.edges|, (e: nat) => g.Gates(e, n) && Carries(g, beh, rank, e),
                   (e: nat) => g.Gates(e, n) && Carries(g, b, rank, e));
      var live := CarryingInto(g, beh, rank, n);
      assert CarryingInto(g, b, rank, n) == live;
      MergeSettled(g, beh, b, rank, s, l, n, live);
    }
  }

  lemma {:induction false} CarriesSettled(g: Graph, beh: Behaviour, b: Behaviour, rank: map<string, nat>, s: State,
                                          l: Ledger, e: nat)
    requires Inv(g, beh, rank, s, [], l) && Agree(beh, b, l) && Emitted(g, s, l, e)
    ensures Carries(g, b, rank, e) == Carries(g, beh, rank, e)
    ensures Carries(g, b, rank, e) ==>
              var u := g.edges[e].source;
              Fate(g, b, rank, u) == Fate(g, beh, rank, u)
              && b(u, Fate(g, b, rank, u).value) == beh(u, Fate(g, beh, rank, u).value)
    decreases Height(rank, g.edges[e].target), 0, 0
  {
    hide Fate, CarryingInto, AgendaOk, TokensOk, BarrierOk;
    var u := g.edges[e].source;
    FateSettled(g, beh, b, rank, s, l, u);
  }

  lemma {:induction false} MergeSettled(g: Graph, beh: Behaviour, b: Behaviour, rank: map<string, nat>, s: State,
                                        l: Ledger, n: string, es: seq<nat>)
    requires Inv(g, beh, rank, s, [], l) && Agree(beh, b, l)
    requires forall i :: 0 <= i < |es| ==>
               g.Gates(es[i], n) && Emitted(g, s, l, es[i]) && Carries(g, beh, rank, es[i])
                   && Carries(g, b, rank, es[i])
    ensures MergeFates(g, b, rank, n, es) == MergeFates(g, beh, rank, n, es)
    decreases Height(rank, n), 1, |es|
  {
    hide Fate, CarryingInto, AgendaOk, TokensOk, BarrierOk, FatesOk, Agree;
    if es != [] {
      var last := es[|es| - 1];
      assert g.Gates(last, n) && Emitted(g, s, l, last) && Carries(g, b, rank, last);
      CarriesSettled(g, beh, b, rank, s, l, last);
      MergeSettled(g, beh, b, rank, s, l, n, es[..|es| - 1]);
    }
  }

  /** The invariant speaks of what has happened only: it holds for every account of the completed nodes. */
  lemma InvSettled(g: Graph, terminals: set<string>, beh: Behaviour, b: Behaviour, rank: map<string, nat>, r: Run,
                   l: Ledger)
    requires RunInv(g, terminals, beh, rank, r, l) && Agree(beh, b, l)
    ensures RunInv(g, terminals, b, rank, r, l)
  {
    hide Fate, Carries, Books, Agree;
    forall e: nat | Emitted(g, r.s, l, e) ensures Due(g, b, rank, e) == Due(g, beh, rank, e) {
      CarriesSettled(g, beh, b, rank, r.s, l, e);
    }
    forall n | Resolved(r.s, l, n) ensures Fate(g, b, rank, n) == Fate(g, beh, rank, n) {
      FateSettled(g, beh, b, rank, r.s, l, n);
    }
    AgendaSettled(g, beh, b, rank, r.s, l);
    TokensSettled(g, beh, b, rank, r.s, l);
    FatesSettled(g, beh, b, rank, r.s, l);
  }

  lemma AgendaSettled(g: Graph, beh: Behaviour, b: Behaviour, rank: map<string, nat>, s: State, l: Ledger)
    requires Layered(g, rank) && AgendaOk(g, beh, rank, s, [], l)
    ensures AgendaOk(g, b, rank, s, [], l)
  {
  }

  lemma TokensSettled(g: Graph, beh: Behaviour, b: Behaviour, rank: map<string, nat>, s: State, l: Ledger)
    requires Layered(g, rank) && AgendaOk(g, beh, rank, s, [], l) && TokensOk(g, beh, rank, s, l)
    requires forall e: nat :: Emitted(g, s, l, e) ==> Due(g, b, rank, e) == Due(g, beh, rank, e)
    ensures TokensOk(g, b, rank, s, l)
  {
    hide Due, Resolved;
    forall t ensures TableOk(g, b, rank, s, l, t) {
      assert TableOk(g, beh, rank, s, l, t);
    }
  }

  lemma FatesSettled(g: Graph, beh: Behaviour, b: Behaviour, rank: map<string, nat>, s: State, l: Ledger)
    requires Layered(g, rank) && FatesOk(g, beh, rank, s, l) && Agree(beh, b, l)
    requires forall n :: Resolved(s, l, n) ==> Fate(g, b, rank, n) == Fate(g, beh, rank, n)
    ensures FatesOk(g, b, rank, s, l)
  {
    hide Fate;
  }

  /** Any pending node may finish next, whatever it does: the account of it is added. */
  lemma AnyFinishKeeps(g: Graph, terminals: set<string>, beh: Behaviour, rank: map<string, nat>, r: Run, i: nat,
                       out: Completion, l: Ledger)
    returns (b: Behaviour, l': Ledger)
    requires RunInv(g, terminals, beh, rank, r, l) && i < |r.pending|
    ensures RunInv(g, terminals, b, rank, FinishWith(g, terminals, r, i, out), l')
    ensures |l'.completed| == |l.completed| + 1
    ensures b(r.pending[i].nodeId, r.pending[i].inputData) == out
    ensures forall k :: 0 <= k < |r.done| ==>
              b(r.done[k].nodeId, r.done[k].inputData) == beh(r.done[k].nodeId, r.done[k].inputData)
  {
    var node := r.pending[i];
    b := (n, input) => if n == node.nodeId then out else beh(n, input);
    PendingIsOpen(r, i, l);
    assert Agree(beh, b, l);
    InvSettled(g, terminals, beh, b, rank, r, l);
    l' := FinishKeeps(g, terminals, b, rank, r, i, l);
  }

  lemma PendingIsOpen(r: Run, i: nat, l: Ledger)
    requires Books(r, l) && i < |r.pending|
    ensures r.pending[i].nodeId !in l.completed
    ensures forall k :: 0 <= k < |r.done| ==> r.done[k].nodeId != r.pending[i].nodeId
  {
  }

  function Outs(script: seq<Turn>): (r: seq<Completion>)
    ensures |r| == |script| && forall i :: 0 <= i < |r| ==> r[i] == script[i].out
  {
    seq(|script|, i requires 0 <= i < |script| => script[i].out)
  }

  /** `beh` tells what each node of a run did: the k-th node done finished with the k-th outcome. */
  ghost predicate Explains(beh: Behaviour, done: seq<ReadyNode>, outs: seq<Completion>) {
    && |done| <= |outs|
    && forall k :: 0 <= k < |done| ==> beh(done[k].nodeId, done[k].inputData) == outs[k]
  }

  /** The whole run: some account explains it, and the invariant holds for that account. */
  lemma {:induction false} DriveKeeps(g: Graph, terminals: set<string>, beh: Behaviour, rank: map<string, nat>, r: Run,
                                      l: Ledger, past: seq<Completion>, script: seq<Turn>)
    returns (b: Behaviour, l': Ledger)
    requires RunInv(g, terminals, beh, rank, r, l) && Explains(beh, r.done, past) && |r.done| == |past|
    ensures var r' := Drive(g, terminals, r, script);
            && RunInv(g, terminals, b, rank, r', l') && Explains(b, r'.done, past + Outs(script))
            && (r'.pending == [] || |l'.completed| == |l.completed| + |script|)
    decreases |script|
  {
    hide RunInv, Complete;
    if script == [] || r.pending == [] {
      b, l' := beh, l;
    } else {
      var i, out := script[0].pick % |r.pending|, script[0].out;
      var b1, l1 := AnyFinishKeeps(g, terminals, beh, rank, r, i, out, l);
      b, l' := DriveKeeps(g, terminals, b1, rank, FinishWith(g, terminals, r, i, out), l1, past + [out], script[1..]);
      assert (past + [out]) + Outs(script[1..]) == past + Outs(script);
    }
  }

  lemma ExplainsAgree(r: Run, l: Ledger, beh: Behaviour, b: Behaviour, outs: seq<Completion>)
    requires Books(r, l) && Explains(beh, r.done, outs) && Explains(b, r.done, outs)
    ensures Agree(beh, b, l)
  {
    forall n | n in l.completed && n in l.ready ensures beh(n, l.ready[n]) == b(n, l.ready[n]) {
      assert Listed(r.done, n);
      var k :| 0 <= k < |r.done| && r.done[k].nodeId == n;
    }
  }

  /** Whatever explains a run, the invariant holds of it. */
  lemma RunIsKept(g: Graph, terminals: set<string>, beh: Behaviour, rank: map<string, nat>, script: seq<Turn>)
    returns (l: Ledger)
    requires Layered(g, rank) && Explains(beh, Drive(g, terminals, Begin(g), script).done, Outs(script))
    ensures var r := Drive(g, terminals, Begin(g), script);
            RunInv(g, terminals, beh, rank, r, l) && (r.pending == [] || |l.completed| == |script|)
  {
    hide Drive, Explains, Inv;
    var l0 := BeginHolds(g, terminals, beh, rank);
    ExplainsNothing(beh);
    var b: Behaviour;
    b, l := DriveKeeps(g, terminals, beh, rank, Begin(g), l0, [], script);
    assert [] + Outs(script) == Outs(script);
    ExplainsAgree(Drive(g, terminals, Begin(g), script), l, b, beh, Outs(script));
    InvSettled(g, terminals, b, beh, rank, Drive(g, terminals, Begin(g), script), l);
  }

  lemma ExplainsNothing(beh: Behaviour)
    ensures Explains(beh, [], [])
  {
  }

  /** What the node launched as x did. */
  function OutcomeOf(done: seq<ReadyNode>, outs: seq<Completion>, x: ReadyNode): Completion
    requires |done| <= |outs|
  {
    if done == [] then Completion(map[], None)
    else if done[|done| - 1] == x then outs[|done| - 1]
    else OutcomeOf(done[..|done| - 1], outs, x)
  }

  /** The account of a run read off the run. */
  function Made(done: seq<ReadyNode>, outs: seq<Completion>): Behaviour
    requires |done| <= |outs|
  {
    (n, input) => OutcomeOf(done, outs, ReadyNode(n, input))
  }

  lemma {:induction false} OutcomeAt(done: seq<ReadyNode>, outs: seq<Completion>, k: nat)
    requires |done| <= |outs| && k < |done|
    requires forall i, j :: 0 <= i < j < |done| ==> done[i].nodeId != done[j].nodeId
    ensures OutcomeOf(done, outs, done[k]) == outs[k]
  {
    if k < |done| - 1 {
      assert done[k].nodeId != done[|done| - 1].nodeId;
      OutcomeAt(done[..|done| - 1], outs, k);
    }
  }

  /** Nodes launched, in flight or done. */
  function Started(r: Run): seq<ReadyNode> {
    r.done + r.pending
  }

  ghost predicate Apart(rs: seq<ReadyNode>) {
    forall i, j :: 0 <= i < j < |rs| ==> rs[i].nodeId != rs[j].nodeId
  }

  /** A workflow in which no reachable node is on a cycle, with what its search found. */
  ghost predicate LoopFree(g: Graph, finish: map<string, nat>) {
    NoSelfEdges(g.edges) && SearchResult(g.start, g.edges, g.back, finish) && g.back == {}
  }

  lemma LoopFreeIsLayered(g: Graph, finish: map<string, nat>)
    requires LoopFree(g, finish)
    ensures Layered(g, RankOf(g.start, finish)) && RankOf(g.start, finish).Keys == finish.Keys
            && |RankOf(g.start, finish)| == |finish|
  {
    hide Reaches;
    var rank := RankOf(g.start, finish);
    assert rank.Keys == finish.Keys;
    forall e | 0 <= e < |g.edges| && g.edges[e].source in rank
      ensures var u, v := g.edges[e].source, g.edges[e].target; v in rank && rank[u] < rank[v]
    {
      assert finish[g.edges[e].source] != finish[g.edges[e].target];
    }
  }

  /** The books of any run, however far it got. */
  lemma RunIsBooked(g: Graph, terminals: set<string>, rank: map<string, nat>, script: seq<Turn>)
    returns (beh: Behaviour, l: Ledger)
    requires Layered(g, rank)
    ensures var r := Drive(g, terminals, Begin(g), script);
            && RunInv(g, terminals, beh, rank, r, l) && Explains(beh, r.done, Outs(script))
            && (r.pending == [] || |l.completed| == |script|)
  {
    hide Drive, Explains, RunInv;
    beh := (n, input) => Completion(map[], None);
    var l0 := BeginHolds(g, terminals, beh, rank);
    ExplainsNothing(beh);
    beh, l := DriveKeeps(g, terminals, beh, rank, Begin(g), l0, [], script);
    assert [] + Outs(script) == Outs(script);
  }

  lemma BooksAreApart(r: Run, l: Ledger)
    requires Books(r, l)
    ensures Apart(Started(r)) && forall i :: 0 <= i < |Started(r)| ==> Started(r)[i].nodeId in l.ready
  {
    assert forall i :: 0 <= i < |r.done| ==> r.done[i].nodeId in l.completed && r.done[i].nodeId in l.ready;
    assert forall i :: 0 <= i < |r.pending| ==> r.pending[i].nodeId in l.ready && r.pending[i].nodeId !in l.completed;
  }

  /**
   Exactly-once's safe half, for every loop-free workflow, any order and any outcomes, dangling
   edges and END nodes with successors included: at any point of any run no node has been launched
   twice, none both launched and pruned, and all of them are reachable.
   */
  lemma NodesRunOnce(g: Graph, terminals: set<string>, finish: map<string, nat>, script: seq<Turn>)
    requires LoopFree(g, finish)
    ensures var r := Drive(g, terminals, Begin(g), script);
            && Apart(Started(r)) && r.s.dead <= finish.Keys
            && forall i :: 0 <= i < |Started(r)| ==>
                 Started(r)[i].nodeId in finish && Started(r)[i].nodeId !in r.s.dead
  {
    hide Drive, AgendaOk, TokensOk, BarrierOk, Fate, SearchResult;
    LoopFreeIsLayered(g, finish);
    var beh, l := RunIsBooked(g, terminals, RankOf(g.start, finish), script);
    BooksAreApart(Drive(g, terminals, Begin(g), script), l);
  }

  lemma MadeExplains(done: seq<ReadyNode>, outs: seq<Completion>)
    requires Apart(done) && |done| <= |outs|
    ensures Explains(Made(done, outs), done, outs)
  {
    forall k | 0 <= k < |done| ensures Made(done, outs)(done[k].nodeId, done[k].inputData) == outs[k] {
      OutcomeAt(done, outs, k);
    }
  }

  /** Every ranked node but START is entered, and by ranked nodes that hand on only. */
  ghost predicate AllEntered(g: Graph, terminals: set<string>, rank: map<string, nat>) {
    && (forall n :: n in rank && n != g.start ==> g.ForwardIn(n) != [])
    && (forall e: nat :: e < |g.edges| && g.edges[e].target in rank && g.edges[e].target != g.start
                         ==> g.edges[e].source in rank && g.edges[e].source !in terminals)
  }

  /** When nothing is pending, whatever became ready has completed. */
  lemma ReadyHaveCompleted(r: Run, l: Ledger)
    requires Books(r, l) && r.pending == []
    ensures l.ready.Keys <= l.completed
  {
    forall n | n in l.ready
      ensures n in l.completed
    {
      assert !Listed(r.pending, n);
    }
  }

  /** When nothing is pending, every node has been resolved. */
  lemma {:induction false} NothingLeftOpen(g: Graph, terminals: set<string>, beh: Behaviour, rank: map<string, nat>,
                                           r: Run, l: Ledger, n: string)
    requires RunInv(g, terminals, beh, rank, r, l) && r.pending == [] && AllEntered(g, terminals, rank) && n in rank
    ensures Resolved(r.s, l, n)
    decreases rank[n]
  {
    hide Fate, Carries, Due, TokensOk;
    if n != g.start {
      forall e: nat | g.Gates(e, n)
        ensures e in l.delivered
      {
        NothingLeftOpen(g, terminals, beh, rank, r, l, g.edges[e].source);
        ReadyHaveCompleted(r, l);
        assert Emitted(g, r.s, l, e);
      }
    }
  }

  /** The nodes that run, each on the input its fate prescribes. */
  ghost function FatedRuns(g: Graph, beh: Behaviour, rank: map<string, nat>): set<ReadyNode>
    requires Layered(g, rank)
  {
    set n | n in rank && Fate(g, beh, rank, n).Some? :: ReadyNode(n, Fate(g, beh, rank, n).value)
  }

  /** The outcome of a run of the whole workflow, with no reference to its schedule. */
  ghost predicate FatedEnd(g: Graph, beh: Behaviour, rank: map<string, nat>, r: Run)
    requires Layered(g, rank)
  {
    && r.pending == []
    && (forall i, j :: 0 <= i < j < |r.done| ==> r.done[i].nodeId != r.done[j].nodeId)
    && (forall x :: x in r.done <==> x in FatedRuns(g, beh, rank))
    && (forall n :: n in r.s.dead <==> n in rank && Fate(g, beh, rank, n) == None)
    && (forall n :: r.s.Tok(n) == map[])
  }

  lemma EndIsFated(g: Graph, terminals: set<string>, beh: Behaviour, rank: map<string, nat>, r: Run, l: Ledger)
    requires RunInv(g, terminals, beh, rank, r, l) && r.pending == [] && AllEntered(g, terminals, rank)
    ensures FatedEnd(g, beh, rank, r)
  {
    hide Fate, Carries, Due, AgendaOk, TokensOk, BarrierOk, FatedRuns, AllEntered;
    forall n | n in rank
      ensures Resolved(r.s, l, n)
    {
      NothingLeftOpen(g, terminals, beh, rank, r, l, n);
    }
    ReadyHaveCompleted(r, l);
    DeliveredReachRanked(g, beh, rank, r.s, [], l);
    TablesAreEmpty(g, beh, rank, r.s, l);
    forall x ensures x in r.done <==> x in FatedRuns(g, beh, rank) {
      DoneIsFated(g, beh, rank, r, l, x);
    }
  }

  lemma DoneIsFated(g: Graph, beh: Behaviour, rank: map<string, nat>, r: Run, l: Ledger,
                    x: ReadyNode)
    requires Layered(g, rank) && FatesOk(g, beh, rank, r.s, l) && Books(r, l) && l.completed == l.ready.Keys
    requires forall n :: n in rank ==> Resolved(r.s, l, n)
    ensures x in r.done <==> x in FatedRuns(g, beh, rank)
  {
    hide Fate;
    if x in r.done {
      var i :| 0 <= i < |r.done| && r.done[i] == x;
      assert Fate(g, beh, rank, x.nodeId) == Some(x.inputData);
    }
    if x in FatedRuns(g, beh, rank) {
      var n :| n in rank && Fate(g, beh, rank, n).Some? && x == ReadyNode(n, Fate(g, beh, rank, n).value);
      assert Listed(r.done, n);
      var i :| 0 <= i < |r.done| && r.done[i].nodeId == n;
      assert r.done[i] == x;
    }
  }

  /** Tokens were delivered by ranked nodes, hence to ranked nodes. */
  lemma DeliveredReachRanked(g: Graph, beh: Behaviour, rank: map<string, nat>, s: State,
                             agenda: seq<Item>, l: Ledger)
    requires Inv(g, beh, rank, s, agenda, l)
    ensures forall e :: e in l.delivered ==> e < |g.edges| && g.edges[e].target in rank
  {
    hide Fate, Carries, Due, TokensOk, BarrierOk;
    forall e | e in l.delivered ensures e < |g.edges| && g.edges[e].target in rank {
      assert Emitted(g, s, l, e);
    }
  }

  lemma TablesAreEmpty(g: Graph, beh: Behaviour, rank: map<string, nat>, s: State, l: Ledger)
    requires Layered(g, rank) && TokensOk(g, beh, rank, s, l)
    requires forall e :: e in l.delivered ==> e < |g.edges| && g.edges[e].target in rank
    requires forall n :: n in rank ==> Resolved(s, l, n)
    ensures forall n :: s.Tok(n) == map[]
  {
    hide Fate, Carries, Due;
    forall n ensures s.Tok(n) == map[] {
      assert TableOk(g, beh, rank, s, l, n);
      if !Resolved(s, l, n) {
        assert s.Tok(n).Keys == {};
      }
    }
  }

  /**
   An acyclic workflow the scheduler can finish: no reachable node is on a cycle, apart from START
   none is entered from an unreachable one, and reachable END nodes lead nowhere.
   */
  ghost predicate Sound(start: string, edges: seq<Edge>, terminals: set<string>) {
    && (forall n :: Reaches(ArcsOf(edges), start, n) ==> !OnCycle(ArcsOf(edges), n))
    && (forall e :: 0 <= e < |edges| && Reaches(ArcsOf(edges), start, edges[e].target) && edges[e].target != start ==>
          Reaches(ArcsOf(edges), start, edges[e].source))
    && (forall e :: 0 <= e < |edges| && Reaches(ArcsOf(edges), start, edges[e].source)
                    ==> edges[e].source !in terminals)
  }

  /** A sound workflow with the back-edges and finishing dates its search found. */
  ghost predicate Runnable(g: Graph, terminals: set<string>, finish: map<string, nat>) {
    NoSelfEdges(g.edges) && SearchResult(g.start, g.edges, g.back, finish) && Sound(g.start, g.edges, terminals)
  }

  lemma RunnableIsLayered(g: Graph, terminals: set<string>, finish: map<string, nat>)
    requires Runnable(g, terminals, finish)
    ensures LoopFree(g, finish) && AllEntered(g, terminals, RankOf(g.start, finish))
  {
    NoBackEdgesIffAcyclic(g.start, g.edges, g.back, finish);
    var rank := RankOf(g.start, finish);
    assert rank.Keys == finish.Keys;
    forall n | n in rank && n != g.start
      ensures g.ForwardIn(n) != []
    {
      var p :| WalkFromTo(ArcsOf(g.edges), g.start, n, p);
      assert (p[|p| - 2], p[|p| - 1]) in ArcsOf(g.edges);
      var e :| 0 <= e < |g.edges| && (g.edges[e].source, g.edges[e].target) == (p[|p| - 2], n);
      assert e in g.ForwardIn(n);
    }
  }

  /** A run of a loop-free workflow is over after as many events as there are reachable nodes. */
  lemma RunEnds(g: Graph, terminals: set<string>, finish: map<string, nat>, script: seq<Turn>)
    requires LoopFree(g, finish) && |script| > |finish|
    ensures Drive(g, terminals, Begin(g), script).pending == []
  {
    hide Drive, AgendaOk, TokensOk, BarrierOk, Fate, Reaches, Explains, Books;
    var rank := RankOf(g.start, finish);
    LoopFreeIsLayered(g, finish);
    var beh, l := RunIsBooked(g, terminals, rank, script);
    SubsetSize(l.completed, rank.Keys);
  }

  /** A run that is over has ended as fated, whatever account of what its nodes did one takes. */
  lemma EndedRunIsFated(g: Graph, terminals: set<string>, beh: Behaviour, finish: map<string, nat>, script: seq<Turn>)
    requires Runnable(g, terminals, finish) && Drive(g, terminals, Begin(g), script).pending == []
    requires Explains(beh, Drive(g, terminals, Begin(g), script).done, Outs(script))
    ensures Layered(g, RankOf(g.start, finish))
    ensures FatedEnd(g, beh, RankOf(g.start, finish), Drive(g, terminals, Begin(g), script))
  {
    hide FatedEnd, Drive, Explains, RunInv, SearchResult, Sound;
    RunnableIsLayered(g, terminals, finish);
    LoopFreeIsLayered(g, finish);
    var l := RunIsKept(g, terminals, beh, RankOf(g.start, finish), script);
    EndIsFated(g, terminals, beh, RankOf(g.start, finish), Drive(g, terminals, Begin(g), script), l);
  }

  /**
   Exactly once. On an acyclic workflow any run, with pending nodes finishing in any order and with
   any outcomes, is over after as many events as there are reachable nodes, and it ends as fated by
   what its nodes did: each reachable node ran once on its fated input or is dead, never both, and
   no token is left over. Nothing is assumed of node bodies; they may read state that other branches
   write.
   */
  lemma EveryRunEndsAsFated(g: Graph, terminals: set<string>, finish: map<string, nat>, script: seq<Turn>)
    requires Runnable(g, terminals, finish) && |script| > |finish|
    ensures Layered(g, RankOf(g.start, finish))
    ensures var r := Drive(g, terminals, Begin(g), script);
            && |r.done| <= |script| && Explains(Made(r.done, Outs(script)), r.done, Outs(script))
            && FatedEnd(g, Made(r.done, Outs(script)), RankOf(g.start, finish), r)
  {
    hide FatedEnd, Drive, Sound, SearchResult, Made, RunInv;
    RunnableIsLayered(g, terminals, finish);
    LoopFreeIsLayered(g, finish);
    RunEnds(g, terminals, finish, script);
    RunIsAccounted(g, terminals, finish, script);
    EndedRunIsFated(g, terminals, Made(Drive(g, terminals, Begin(g), script).done, Outs(script)), finish, script);
  }

  /** What a run of a loop-free workflow shows of its nodes explains it. */
  lemma RunIsAccounted(g: Graph, terminals: set<string>, finish: map<string, nat>, script: seq<Turn>)
    requires LoopFree(g, finish)
    ensures var r := Drive(g, terminals, Begin(g), script);
            |r.done| <= |script| && Explains(Made(r.done, Outs(script)), r.done, Outs(script))
  {
    hide Drive, SearchResult, Made, RunInv;
    LoopFreeIsLayered(g, finish);
    var beh, l := RunIsBooked(g, terminals, RankOf(g.start, finish), script);
    NodesRunOnce(g, terminals, finish, script);
    var r := Drive(g, terminals, Begin(g), script);
    assert Apart(r.done) by {
      assert forall i :: 0 <= i < |r.done| ==> Started(r)[i] == r.done[i];
    }
    MadeExplains(r.done, Outs(script));
  }

  /** A node that both runs launched on the same input did the same in both. */
  ghost predicate CompleteAlike(g: Graph, terminals: set<string>, a: seq<Turn>, b: seq<Turn>) {
    var ra, rb := Drive(g, terminals, Begin(g), a), Drive(g, terminals, Begin(g), b);
    forall i, j :: 0 <= i < |ra.done| && 0 <= j < |rb.done| && i < |a| && j < |b| && ra.done[i] == rb.done[j]
                   ==> a[i].out == b[j].out
  }

  /**
   Order does not matter beyond what it makes nodes do: two runs in which the nodes launched on the
   same input did the same have run the same nodes on the same inputs and pruned the same nodes.
   */
  lemma RunsAgree(g: Graph, terminals: set<string>, finish: map<string, nat>, a: seq<Turn>, b: seq<Turn>)
    requires Runnable(g, terminals, finish) && |a| > |finish| && |b| > |finish|
    requires CompleteAlike(g, terminals, a, b)
    ensures var ra, rb := Drive(g, terminals, Begin(g), a), Drive(g, terminals, Begin(g), b);
            multiset(ra.done) == multiset(rb.done) && ra.s.dead == rb.s.dead
  {
    hide Drive, Sound, SearchResult, Fate;
    RunnableIsLayered(g, terminals, finish);
    LoopFreeIsLayered(g, finish);
    var ra, rb := Drive(g, terminals, Begin(g), a), Drive(g, terminals, Begin(g), b);
    RunEnds(g, terminals, finish, a);
    RunEnds(g, terminals, finish, b);
    RunIsAccounted(g, terminals, finish, a);
    RunIsAccounted(g, terminals, finish, b);
    var beh := CommonAccount(ra.done, Outs(a), rb.done, Outs(b));
    EndedRunIsFated(g, terminals, beh, finish, a);
    EndedRunIsFated(g, terminals, beh, finish, b);
    SameFates(g, beh, RankOf(g.start, finish), ra, rb);
  }

  lemma CommonAccount(done: seq<ReadyNode>, outs: seq<Completion>, other: seq<ReadyNode>, otherOuts: seq<Completion>)
    returns (beh: Behaviour)
    requires |done| <= |outs| && |other| <= |otherOuts|
    requires Explains(Made(done, outs), done, outs) && Explains(Made(other, otherOuts), other, otherOuts)
    requires forall i, j :: 0 <= i < |done| && 0 <= j < |other| && done[i] == other[j] ==> outs[i] == otherOuts[j]
    ensures Explains(beh, done, outs) && Explains(beh, other, otherOuts)
  {
    hide Made;
    var first, second := Made(done, outs), Made(other, otherOuts);
    beh := (n, input) => if ReadyNode(n, input) in done then first(n, input) else second(n, input);
    forall j | 0 <= j < |other| ensures beh(other[j].nodeId, other[j].inputData) == otherOuts[j] {
      if other[j] in done {
        var i :| 0 <= i < |done| && done[i] == other[j];
      }
    }
  }

  lemma SameFates(g: Graph, beh: Behaviour, rank: map<string, nat>, ra: Run, rb: Run)
    requires Layered(g, rank) && FatedEnd(g, beh, rank, ra) && FatedEnd(g, beh, rank, rb)
    ensures multiset(ra.done) == multiset(rb.done) && ra.s.dead == rb.s.dead
  {
    hide Fate, FatedRuns;
    forall x ensures multiset(ra.done)[x] == multiset(rb.done)[x] {
      OccursOnce(ra.done, x);
      OccursOnce(rb.done, x);
    }
    assert multiset(ra.done) == multiset(rb.done);
    assert ra.s.dead == rb.s.dead;
  }

  lemma {:induction false} OccursOnce(rs: seq<ReadyNode>, x: ReadyNode)
    requires forall i, j :: 0 <= i < j < |rs| ==> rs[i].nodeId != rs[j].nodeId
    ensures multiset(rs)[x] == if x in rs then 1 else 0
  {
    if rs != [] {
      var init, last := rs[..|rs| - 1], rs[|rs| - 1];
      OccursOnce(init, x);
      assert rs == init + [last];
      assert last !in init;
    }
  }
}
