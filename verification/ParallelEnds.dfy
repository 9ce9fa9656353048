/**
 The static check against the dynamic engine: when no END is reported, no run of the scheduler
 makes two different END nodes ready, whatever the completion order and the outcomes.
 */
module ParallelEnds {
  import opened Workflow
  import opened Collections
  import opened Digraph
  import opened DagModel
  import opened BackEdges
  import opened DagRuns
  import Analysis = GraphAnalysis
  import C = Confluence

  /** The arcs the static check sees for the scheduler's edges. */
  ghost function AnalysedArcs(nodes: Nodes, g: Graph): Arcs {
    ArcsOf(Analysis.ValidEdges(nodes, g.edges))
  }

  ghost predicate EndFrom(nodes: Nodes, g: Graph, n: string, end: string) {
    Analysis.EndFrom(nodes, AnalysedArcs(nodes, g), n, end)
  }

  /** Two activations cannot lead to different ENDs. */
  ghost predicate Compatible(nodes: Nodes, g: Graph, u: string, v: string) {
    forall x, y, z ::
      EndFrom(nodes, g, u, x) && EndFrom(nodes, g, v, y) && (EndFrom(nodes, g, u, z) || EndFrom(nodes, g, v, z))
      ==> z == x
  }

  /** Below u there is no END that is not below v. */
  ghost predicate Narrower(nodes: Nodes, g: Graph, u: string, v: string) {
    forall x :: EndFrom(nodes, g, u, x) ==> EndFrom(nodes, g, v, x)
  }

  lemma CompatibleNarrows(nodes: Nodes, g: Graph, u: string, v: string, w: string)
    requires Compatible(nodes, g, v, w) && Narrower(nodes, g, u, v)
    ensures Compatible(nodes, g, u, w) && Compatible(nodes, g, w, u)
  {
    hide EndFrom;
    forall x, y, z | EndFrom(nodes, g, u, x) && EndFrom(nodes, g, w, y)
        && (EndFrom(nodes, g, u, z) || EndFrom(nodes, g, w, z))
      ensures z == x && z == y
    {
      assert EndFrom(nodes, g, v, x);
      assert EndFrom(nodes, g, u, z) ==> EndFrom(nodes, g, v, z);
    }
  }

  lemma EdgeIsArc(nodes: Nodes, g: Graph, e: nat)
    requires e < |g.edges| && g.edges[e].source in nodes && g.edges[e].target in nodes && NoSelfEdges(g.edges)
    ensures (g.edges[e].source, g.edges[e].target) in AnalysedArcs(nodes, g)
  {
    var valid := Analysis.ValidEdges(nodes, g.edges);
    assert g.edges[e] in valid;
    var i :| 0 <= i < |valid| && valid[i] == g.edges[e];
  }

  lemma DownIsNarrower(nodes: Nodes, g: Graph, u: string, v: string)
    requires (u, v) in AnalysedArcs(nodes, g)
    ensures Narrower(nodes, g, v, u)
  {
    hide Reaches;
    forall x | EndFrom(nodes, g, v, x)
      ensures EndFrom(nodes, g, u, x)
    {
      ArcThenReaches(AnalysedArcs(nodes, g), u, v, x);
    }
  }

  /** Nothing is reported: no AND-split races. */
  ghost predicate NothingReported(nodes: Nodes, g: Graph) {
    forall n :: !Analysis.ParallelEnd(nodes, AnalysedArcs(nodes, g), n)
  }

  /** A racing split has something to report. */
  lemma RacingIsReported(nodes: Nodes, g: Graph, v: string)
    requires NothingReported(nodes, g)
    ensures !Analysis.RacingSplit(nodes, AnalysedArcs(nodes, g), v)
  {
    var arcs := AnalysedArcs(nodes, g);
    hide Reaches, ArcsOf, AnalysedArcs, Analysis.EndBelow;
    assert forall x :: Analysis.RacingSplit(nodes, arcs, v) && Analysis.EndBelow(nodes, arcs, v, x)
                       ==> Analysis.ParallelEnd(nodes, arcs, x);
  }

  /** Two branches of a split that does not race are compatible. */
  lemma QuietSplit(nodes: Nodes, g: Graph, v: string, a: string, b: string)
    requires NothingReported(nodes, g) && v in nodes && nodes[v] != Condition && a != b
    requires (v, a) in AnalysedArcs(nodes, g) && (v, b) in AnalysedArcs(nodes, g)
    ensures Compatible(nodes, g, a, b)
  {
    var arcs := AnalysedArcs(nodes, g);
    RacingIsReported(nodes, g, v);
    hide Reaches, ArcsOf, AnalysedArcs;
    forall x, y, z | EndFrom(nodes, g, a, x) && EndFrom(nodes, g, b, y)
        && (EndFrom(nodes, g, a, z) || EndFrom(nodes, g, b, z))
      ensures z == x
    {
      assert Analysis.EndFrom(nodes, arcs, a, x) && Analysis.EndFrom(nodes, arcs, b, y);
      assert Analysis.LeadsToEnd(nodes, arcs, a) && Analysis.LeadsToEnd(nodes, arcs, b);
      assert Analysis.EndBelow(nodes, arcs, v, x) && Analysis.EndBelow(nodes, arcs, v, z);
    }
  }

  /** Two different ENDs are never compatible. */
  lemma EndsClash(nodes: Nodes, g: Graph, x: string, y: string)
    requires Compatible(nodes, g, x, y) && Analysis.IsEnd(nodes, x) && Analysis.IsEnd(nodes, y)
    ensures x == y
  {
    ReachesSelf(AnalysedArcs(nodes, g), x);
    ReachesSelf(AnalysedArcs(nodes, g), y);
    hide Reaches;
    assert EndFrom(nodes, g, x, x) && EndFrom(nodes, g, y, y);
  }

  /** Ok for two different activations; with `merge`, two activations of one node count as one. */
  ghost predicate Ok(merge: bool, nodes: Nodes, g: Graph, u: string, v: string) {
    (merge && u == v) || Compatible(nodes, g, u, v)
  }

  /** The scheduler in the middle of a call: tables, deliveries to be made, nodes ready or finished as END. */
  datatype Snap = Snap(s: State, agenda: seq<Item>, ready: seq<string>)

  /** An activation: a ready node, a LIVE token in a table, or a LIVE delivery still to be made. */
  datatype Key = AtReady(i: nat) | AtToken(e: nat) | AtItem(k: nat)

  ghost predicate Present(g: Graph, p: Snap, key: Key) {
    match key
    case AtReady(i) => i < |p.ready|
    case AtToken(e) => e < |g.edges| && e in p.s.Tok(g.edges[e].target) && p.s.Tok(g.edges[e].target)[e] == Live
    case AtItem(k) => k < |p.agenda| && p.agenda[k].edge < |g.edges| && p.agenda[k].status == Live
  }

  ghost function NodeAt(g: Graph, p: Snap, key: Key): string
    requires Present(g, p, key)
  {
    match key
    case AtReady(i) => p.ready[i]
    case AtToken(e) => g.edges[e].target
    case AtItem(k) => g.edges[p.agenda[k].edge].target
  }

  /** Any two activations are ok together. */
  ghost predicate PairsOk(merge: bool, nodes: Nodes, g: Graph, p: Snap) {
    forall a, b :: Present(g, p, a) && Present(g, p, b) && a != b
        ==> Ok(merge, nodes, g, NodeAt(g, p, a), NodeAt(g, p, b))
  }

  /** Moving activations about, or dropping some, keeps them pairwise ok. */
  lemma Moved(merge: bool, nodes: Nodes, g: Graph, p: Snap, p': Snap, from: Key -> Key)
    requires PairsOk(merge, nodes, g, p)
    requires forall a :: Present(g, p', a) ==> Present(g, p, from(a)) && NodeAt(g, p', a) == NodeAt(g, p, from(a))
    requires forall a, b :: Present(g, p', a) && Present(g, p', b) && a != b ==> from(a) != from(b)
    ensures PairsOk(merge, nodes, g, p')
  {
    hide Ok;
    forall a, b | Present(g, p', a) && Present(g, p', b) && a != b
      ensures Ok(merge, nodes, g, NodeAt(g, p', a), NodeAt(g, p', b))
    {
      assert Present(g, p, from(a)) && Present(g, p, from(b));
    }
  }

  /** A LIVE back-edge delivery becomes a ready node. */
  lemma StepReactivates(merge: bool, nodes: Nodes, g: Graph, p: Snap)
    requires PairsOk(merge, nodes, g, p) && p.agenda != [] && p.agenda[0].edge < |g.edges| && p.agenda[0].status == Live
    ensures PairsOk(merge, nodes, g, Snap(p.s, p.agenda[1..], p.ready + [g.edges[p.agenda[0].edge].target]))
  {
    var p' := Snap(p.s, p.agenda[1..], p.ready + [g.edges[p.agenda[0].edge].target]);
    Moved(merge, nodes, g, p, p', (a: Key) =>
            match a
            case AtReady(i) => if i < |p.ready| then a else AtItem(0)
            case AtToken(_) => a
            case AtItem(k) => AtItem(k + 1));
  }

  /** A forward delivery becomes a token, replacing the one its edge may have held. */
  lemma StepPuts(merge: bool, nodes: Nodes, g: Graph, p: Snap)
    requires PairsOk(merge, nodes, g, p) && p.agenda != [] && p.agenda[0].edge < |g.edges|
    ensures PairsOk(merge, nodes, g, Snap(PutToken(g, p.s, p.agenda[0]), p.agenda[1..], p.ready))
  {
    var p' := Snap(PutToken(g, p.s, p.agenda[0]), p.agenda[1..], p.ready);
    Moved(merge, nodes, g, p, p', (a: Key) =>
            match a
            case AtReady(_) => a
            case AtToken(e) => if e == p.agenda[0].edge then AtItem(0) else a
            case AtItem(k) => AtItem(k + 1));
  }

  /** A full table with a LIVE token becomes a ready node. */
  lemma StepFires(merge: bool, nodes: Nodes, g: Graph, p: Snap, t: string, e: nat, s': State)
    requires PairsOk(merge, nodes, g, p) && Present(g, p, AtToken(e)) && g.edges[e].target == t
    requires s'.tokens == p.s.tokens[t := map[]]
    ensures PairsOk(merge, nodes, g, Snap(s', p.agenda, p.ready + [t]))
  {
    var p' := Snap(s', p.agenda, p.ready + [t]);
    Moved(merge, nodes, g, p, p', (a: Key) => if a == AtReady(|p.ready|) then AtToken(e) else a);
  }

  /** Pruning drops the table and adds only DEAD deliveries. */
  lemma StepPrunes(merge: bool, nodes: Nodes, g: Graph, p: Snap, t: string, s': State, owed: seq<Item>)
    requires PairsOk(merge, nodes, g, p) && forall i :: 0 <= i < |owed| ==> owed[i].status == Dead
    requires s'.tokens == p.s.tokens[t := map[]]
    ensures PairsOk(merge, nodes, g, Snap(s', owed + p.agenda, p.ready))
  {
    var p' := Snap(s', owed + p.agenda, p.ready);
    Moved(merge, nodes, g, p, p', (a: Key) => if a.AtItem? && a.k >= |owed| then AtItem(a.k - |owed|) else a);
  }

  function Names(rs: seq<ReadyNode>): (r: seq<string>)
    ensures |r| == |rs| && forall i :: 0 <= i < |rs| ==> r[i] == rs[i].nodeId
  {
    seq(|rs|, i requires 0 <= i < |rs| => rs[i].nodeId)
  }

  /** Back-edges are only ever delivered LIVE. */
  ghost predicate BackLive(g: Graph, agenda: seq<Item>) {
    forall i :: 0 <= i < |agenda| ==> agenda[i].edge < |g.edges|
                                      && (agenda[i].edge in g.back ==> agenda[i].status == Live)
  }

  lemma OwedIsBackLive(g: Graph, s: State, agenda: seq<Item>)
    requires agenda != [] && BackLive(g, agenda)
    ensures BackLive(g, Step(g, s, agenda[0]).2 + agenda[1..])
    ensures forall i :: 0 <= i < |Step(g, s, agenda[0]).2| ==> Step(g, s, agenda[0]).2[i].status == Dead
  {
    hide LiveSources, Merge, PutToken;
    var owed := Step(g, s, agenda[0]).2;
    forall i | 0 <= i < |owed|
      ensures owed[i].status == Dead && owed[i].edge < |g.edges| && owed[i].edge !in g.back
    {
      assert owed[i] in owed;
    }
  }

  /** What a forward delivery does, by the reaction of its target. */
  lemma ForwardCases(g: Graph, s: State, it: Item)
    requires it.edge < |g.edges| && it.edge !in g.back
    ensures var (s', ready, owed) := Step(g, s, it);
            var put, t := PutToken(g, s, it), g.edges[it.edge].target;
            var live := LiveSources(g, put.Tok(t), t);
            if !Saturated(g, put, t) then s' == put && Names(ready) == [] && owed == []
            else && s'.tokens == put.tokens[t := map[]]
                 && if live != [] then Names(ready) == [t] && owed == [] else Names(ready) == []
  {
    hide LiveSources, Merge;
  }

  /** A forward delivery and the reaction of its target. */
  lemma ForwardOk(merge: bool, nodes: Nodes, g: Graph, p: Snap)
    requires PairsOk(merge, nodes, g, p) && p.agenda != [] && p.agenda[0].edge < |g.edges|
             && p.agenda[0].edge !in g.back
    requires forall i :: 0 <= i < |Step(g, p.s, p.agenda[0]).2| ==> Step(g, p.s, p.agenda[0]).2[i].status == Dead
    ensures var (s', ready, owed) := Step(g, p.s, p.agenda[0]);
            PairsOk(merge, nodes, g, Snap(s', owed + p.agenda[1..], p.ready + Names(ready)))
  {
    hide PairsOk, LiveSources, Step, Names;
    var it := p.agenda[0];
    var (s', ready, owed) := Step(g, p.s, it);
    var put, t := PutToken(g, p.s, it), g.edges[it.edge].target;
    var mid := Snap(put, p.agenda[1..], p.ready);
    ForwardCases(g, p.s, it);
    StepPuts(merge, nodes, g, p);
    var live := LiveSources(g, put.Tok(t), t);
    assert p.ready + [] == p.ready && [] + p.agenda[1..] == p.agenda[1..];
    if Saturated(g, put, t) {
      if live != [] {
        assert live[0] in live;
        StepFires(merge, nodes, g, mid, t, live[0], s');
      } else {
        StepPrunes(merge, nodes, g, mid, t, s', owed);
      }
    }
  }

  /** One agenda entry. */
  lemma StepOk(merge: bool, nodes: Nodes, g: Graph, p: Snap)
    requires PairsOk(merge, nodes, g, p) && p.agenda != [] && BackLive(g, p.agenda)
    ensures var (s', ready, owed) := Step(g, p.s, p.agenda[0]);
            PairsOk(merge, nodes, g, Snap(s', owed + p.agenda[1..], p.ready + Names(ready)))
                && BackLive(g, owed + p.agenda[1..])
  {
    hide PairsOk, Fire;
    OwedIsBackLive(g, p.s, p.agenda);
    if p.agenda[0].edge in g.back {
      StepReactivates(merge, nodes, g, p);
      assert [] + p.agenda[1..] == p.agenda[1..];
      assert Names(Step(g, p.s, p.agenda[0]).1) == [g.edges[p.agenda[0].edge].target];
    } else {
      ForwardOk(merge, nodes, g, p);
    }
  }

  lemma {:induction false} ExecOk(merge: bool, nodes: Nodes, g: Graph, p: Snap)
    requires PairsOk(merge, nodes, g, p) && BackLive(g, p.agenda)
    ensures ValidItems(g, p.agenda)
    ensures var (s', ready) := Exec(g, p.s, p.agenda);
            PairsOk(merge, nodes, g, Snap(s', [], p.ready + Names(ready)))
    decreases g.Targets() - p.s.dead, |p.agenda|
  {
    hide PairsOk, Step;
    if p.agenda == [] {
      assert p.ready + Names([]) == p.ready;
    } else {
      var (s1, ready, owed) := Step(g, p.s, p.agenda[0]);
      StepOk(merge, nodes, g, p);
      var next := Snap(s1, owed + p.agenda[1..], p.ready + Names(ready));
      ExecOk(merge, nodes, g, next);
      var more := Exec(g, s1, next.agenda).1;
      assert p.ready + Names(ready + more) == next.ready + Names(more);
    }
  }

  /**
   Each outcome leaves a node by one route: a router has one edge per handle, a plain node one edge
   per target. With `merge`, further edges to the same target are allowed.
   */
  ghost predicate SingleRoutes(merge: bool, nodes: Nodes, g: Graph) {
    forall e, f :: 0 <= e < f < |g.edges| && g.edges[e].source == g.edges[f].source ==>
      var v, same := g.edges[e].source, g.edges[e].target == g.edges[f].target;
      if v in nodes && nodes[v] == Condition then
        g.edges[e].sourceHandle.Some? && g.edges[e].sourceHandle == g.edges[f].sourceHandle ==> merge && same
      else same ==> merge
  }

  /** The setting of the soundness result. */
  ghost predicate Checked(merge: bool, nodes: Nodes, g: Graph) {
    && NoSelfEdges(g.edges) && g.start in nodes
    && (forall e :: 0 <= e < |g.edges| ==> g.edges[e].target in nodes)
    && SingleRoutes(merge, nodes, g) && NothingReported(nodes, g)
  }

  /** Two edges one completion makes LIVE lead to compatible targets. */
  lemma LiveBranchesOk(merge: bool, nodes: Nodes, g: Graph, v: string, branch: Option<int>, e: nat, f: nat)
    requires Checked(merge, nodes, g) && Typed(nodes, v, branch) && e != f
    requires g.Takes(e, v, branch) && g.Takes(f, v, branch)
    ensures Ok(merge, nodes, g, g.edges[e].target, g.edges[f].target)
  {
    var lo, hi := if e < f then e else f, if e < f then f else e;
    assert g.edges[lo].source == g.edges[hi].source;
    if !(merge && g.edges[e].target == g.edges[f].target) {
      EdgeIsArc(nodes, g, e);
      EdgeIsArc(nodes, g, f);
      hide Compatible, NothingReported;
      QuietSplit(nodes, g, v, g.edges[e].target, g.edges[f].target);
    }
  }

  /** With `merge`, the completing node must not be activated a second time. */
  ghost predicate OnlyActivation(g: Graph, p: Snap, v: string) {
    forall a :: Present(g, p, a) ==> NodeAt(g, p, a) != v
  }

  /** A node below v is ok with whatever v was ok with. */
  lemma BelowOk(merge: bool, nodes: Nodes, g: Graph, v: string, e: nat, w: string)
    requires Checked(merge, nodes, g) && v in nodes && g.Leaves(e, v)
    requires Ok(merge, nodes, g, v, w) && (merge ==> w != v)
    ensures Ok(merge, nodes, g, g.edges[e].target, w) && Ok(merge, nodes, g, w, g.edges[e].target)
  {
    EdgeIsArc(nodes, g, e);
    DownIsNarrower(nodes, g, v, g.edges[e].target);
    CompatibleNarrows(nodes, g, g.edges[e].target, v, w);
  }

  function Shifted(a: Key, i: nat): Key {
    if a.AtReady? && a.i >= i then AtReady(a.i + 1) else a
  }

  /** An activation that was there before the completion. */
  lemma OldActivation(merge: bool, nodes: Nodes, g: Graph, p: Snap, rest: seq<string>, i: nat, b: Key)
    requires PairsOk(merge, nodes, g, p) && i < |p.ready| && rest == WithoutAt(p.ready, i) && p.agenda == []
    requires Present(g, Snap(p.s, [], rest), b)
    ensures Present(g, p, Shifted(b, i)) && Shifted(b, i) != AtReady(i)
    ensures NodeAt(g, p, Shifted(b, i)) == NodeAt(g, Snap(p.s, [], rest), b)
    ensures Ok(merge, nodes, g, p.ready[i], NodeAt(g, Snap(p.s, [], rest), b))
  {
    hide Ok;
    assert Present(g, p, AtReady(i)) && Present(g, p, Shifted(b, i));
  }

  /** A new activation next to an old one. */
  lemma NewNextToOld(merge: bool, nodes: Nodes, g: Graph, p: Snap, rest: seq<string>, i: nat, e: nat, b: Key)
    requires Checked(merge, nodes, g) && PairsOk(merge, nodes, g, p) && i < |p.ready| && rest == WithoutAt(p.ready, i)
             && p.agenda == []
    requires p.ready[i] in nodes && g.Leaves(e, p.ready[i]) && Present(g, Snap(p.s, [], rest), b)
    requires merge ==> OnlyActivation(g, Snap(p.s, [], rest), p.ready[i])
    ensures var w := NodeAt(g, Snap(p.s, [], rest), b);
            Ok(merge, nodes, g, g.edges[e].target, w) && Ok(merge, nodes, g, w, g.edges[e].target)
  {
    hide Ok, Checked;
    OldActivation(merge, nodes, g, p, rest, i, b);
    BelowOk(merge, nodes, g, p.ready[i], e, NodeAt(g, Snap(p.s, [], rest), b));
  }

  lemma OldNextToOld(merge: bool, nodes: Nodes, g: Graph, p: Snap, rest: seq<string>, i: nat, a: Key, b: Key)
    requires PairsOk(merge, nodes, g, p) && i < |p.ready| && rest == WithoutAt(p.ready, i) && p.agenda == []
    requires Present(g, Snap(p.s, [], rest), a) && Present(g, Snap(p.s, [], rest), b) && a != b
    ensures Ok(merge, nodes, g, NodeAt(g, Snap(p.s, [], rest), a), NodeAt(g, Snap(p.s, [], rest), b))
  {
    hide Ok;
    OldActivation(merge, nodes, g, p, rest, i, a);
    OldActivation(merge, nodes, g, p, rest, i, b);
    assert Shifted(a, i) != Shifted(b, i);
  }

  /** A completing node trades its activation for those of its LIVE edges. */
  lemma CompleteOk(merge: bool, nodes: Nodes, g: Graph, s: State, ready: seq<string>, i: nat, branch: Option<int>,
                   s': State)
    requires Checked(merge, nodes, g) && PairsOk(merge, nodes, g, Snap(s, [], ready)) && i < |ready|
    requires Typed(nodes, ready[i], branch) && s'.tokens == s.tokens
    requires merge ==> OnlyActivation(g, Snap(s, [], WithoutAt(ready, i)), ready[i])
    ensures PairsOk(merge, nodes, g, Snap(s', CompleteAgenda(g, ready[i], branch), WithoutAt(ready, i)))
  {
    hide Ok, Checked, OnlyActivation, CompleteAgenda;
    var v, rest, agenda := ready[i], WithoutAt(ready, i), CompleteAgenda(g, ready[i], branch);
    var p, p', old' := Snap(s, [], ready), Snap(s', agenda, rest), Snap(s, [], rest);
    CompleteAgendaTakes(g, v, branch);
    forall a, b | Present(g, p', a) && Present(g, p', b) && a != b
      ensures Ok(merge, nodes, g, NodeAt(g, p', a), NodeAt(g, p', b))
    {
      assert !a.AtItem? ==> Present(g, old', a) && NodeAt(g, old', a) == NodeAt(g, p', a);
      assert !b.AtItem? ==> Present(g, old', b) && NodeAt(g, old', b) == NodeAt(g, p', b);
      if a.AtItem? && b.AtItem? {
        LiveBranchesOk(merge, nodes, g, v, branch, agenda[a.k].edge, agenda[b.k].edge);
      } else if a.AtItem? {
        NewNextToOld(merge, nodes, g, p, rest, i, agenda[a.k].edge, b);
      } else if b.AtItem? {
        NewNextToOld(merge, nodes, g, p, rest, i, agenda[b.k].edge, a);
      } else {
        OldNextToOld(merge, nodes, g, p, rest, i, a, b);
      }
    }
  }

  /** The LIVE deliveries of a completion are the edges it takes, each once. */
  lemma CompleteAgendaTakes(g: Graph, v: string, branch: Option<int>)
    ensures var agenda := CompleteAgenda(g, v, branch);
            && BackLive(g, agenda)
            && (forall k :: 0 <= k < |agenda| && agenda[k].status == Live ==> g.Takes(agenda[k].edge, v, branch))
            && (forall k, m :: 0 <= k < m < |agenda| && agenda[k].status == agenda[m].status == Live
                               ==> agenda[k].edge != agenda[m].edge)
  {
    hide CompleteAgenda, Graph.Selected;
    AgendaByPosition(g, v, branch);
  }

  /** Finished END nodes. */
  function EndNames(nodes: Nodes, rs: seq<ReadyNode>): (r: seq<string>)
    ensures forall n :: n in r ==> n in Ends(nodes) && exists i :: 0 <= i < |rs| && rs[i].nodeId == n
    ensures forall i :: 0 <= i < |rs| && rs[i].nodeId in Ends(nodes) ==> rs[i].nodeId in r
  {
    if rs == [] then []
    else
      var init, last := rs[..|rs| - 1], rs[|rs| - 1].nodeId;
      EndNames(nodes, init) + if last in nodes && nodes[last] == End then [last] else []
  }

  ghost function Activations(nodes: Nodes, r: Run): Snap {
    Snap(r.s, [], EndNames(nodes, r.done) + Names(r.pending))
  }

  ghost predicate RunPairs(merge: bool, nodes: Nodes, g: Graph, r: Run) {
    && PairsOk(merge, nodes, g, Activations(nodes, r))
    && forall i :: 0 <= i < |r.pending| ==> r.pending[i].nodeId in nodes
  }

  /** What one agenda entry makes ready is the target of its edge. */
  lemma StepReadies(g: Graph, s: State, it: Item)
    requires it.edge < |g.edges|
    ensures forall i :: 0 <= i < |Step(g, s, it).1| ==> Step(g, s, it).1[i].nodeId == g.edges[it.edge].target
  {
    hide PutToken, Merge, LiveSources;
  }

  /** Only nodes of the workflow become ready. */
  lemma {:induction false} ExecReadies(nodes: Nodes, g: Graph, s: State, agenda: seq<Item>)
    requires ValidItems(g, agenda) && forall e :: 0 <= e < |g.edges| ==> g.edges[e].target in nodes
    ensures forall i :: 0 <= i < |Exec(g, s, agenda).1| ==> Exec(g, s, agenda).1[i].nodeId in nodes
    decreases g.Targets() - s.dead, |agenda|
  {
    hide Step;
    if agenda != [] {
      var (s1, ready, owed) := Step(g, s, agenda[0]);
      StepReadies(g, s, agenda[0]);
      ExecReadies(nodes, g, s1, owed + agenda[1..]);
    }
  }

  /** Moving one ready node further to the front. */
  lemma MovedForward(merge: bool, nodes: Nodes, g: Graph, p: Snap, m: nat, i: nat, ready: seq<string>)
    requires PairsOk(merge, nodes, g, p) && m <= i < |p.ready| == |ready|
    requires ready[m] == p.ready[i]
    requires forall k :: 0 <= k < |ready| && k != m ==> ready[k] == p.ready[if m < k <= i then k - 1 else k]
    ensures PairsOk(merge, nodes, g, Snap(p.s, p.agenda, ready))
  {
    Moved(merge, nodes, g, p, Snap(p.s, p.agenda, ready), (a: Key) =>
            if !a.AtReady? then a
            else if a.i == m then AtReady(i)
            else if m < a.i <= i then AtReady(a.i - 1)
            else a);
  }

  /** An END that finishes stays on record. */
  lemma EndFinishes(merge: bool, nodes: Nodes, g: Graph, r: Run, i: nat)
    requires RunPairs(merge, nodes, g, r) && i < |r.pending| && r.pending[i].nodeId in Ends(nodes)
    ensures RunPairs(merge, nodes, g, Run(r.s, WithoutAt(r.pending, i), r.done + [r.pending[i]]))
  {
    hide PairsOk, EndNames, Names, WithoutAt;
    var ends, rest := EndNames(nodes, r.done), WithoutAt(r.pending, i);
    EndRecorded(nodes, r.done, r.pending, i);
    MovedForward(merge, nodes, g, Activations(nodes, r), |ends|, |ends| + i,
                 ends + [r.pending[i].nodeId] + Names(rest));
    StillNodes(nodes, r.pending, i);
  }

  lemma StillNodes(nodes: Nodes, pending: seq<ReadyNode>, i: nat)
    requires i < |pending| && forall k :: 0 <= k < |pending| ==> pending[k].nodeId in nodes
    ensures var rest := WithoutAt(pending, i); forall k :: 0 <= k < |rest| ==> rest[k].nodeId in nodes
  {
    var rest := WithoutAt(pending, i);
    forall k | 0 <= k < |rest| ensures rest[k] == pending[if k < i then k else k + 1] {
    }
  }

  /** The activations when a pending END joins the finished ones: its name moves to the end of theirs. */
  lemma EndRecorded(nodes: Nodes, done: seq<ReadyNode>, pending: seq<ReadyNode>, i: nat)
    requires i < |pending| && pending[i].nodeId in Ends(nodes)
    ensures var ends, rest := EndNames(nodes, done), WithoutAt(pending, i);
            var all, moved := ends + Names(pending), ends + [pending[i].nodeId] + Names(rest);
            && EndNames(nodes, done + [pending[i]]) == ends + [pending[i].nodeId]
            && |ends| + i < |moved| == |all| && moved[|ends|] == all[|ends| + i]
            && forall k :: 0 <= k < |moved| && k != |ends| ==>
                 moved[k] == all[if |ends| < k <= |ends| + i then k - 1 else k]
  {
    hide EndNames;
    EndNamesAdd(nodes, done, pending[i]);
    var rest := WithoutAt(pending, i);
    forall k | 0 <= k < |rest| ensures rest[k] == pending[if k < i then k else k + 1] {
    }
  }

  lemma EndNamesAdd(nodes: Nodes, done: seq<ReadyNode>, x: ReadyNode)
    requires x.nodeId in Ends(nodes)
    ensures EndNames(nodes, done + [x]) == EndNames(nodes, done) + [x.nodeId]
  {
    assert (done + [x])[..|done|] == done;
  }

  lemma NamesWithout(ends: seq<string>, ps: seq<ReadyNode>, i: nat)
    requires i < |ps|
    ensures WithoutAt(ends + Names(ps), |ends| + i) == ends + Names(WithoutAt(ps, i))
    ensures (ends + Names(ps))[|ends| + i] == ps[i].nodeId
  {
  }

  lemma NamesSum(ends: seq<string>, a: seq<ReadyNode>, b: seq<ReadyNode>)
    ensures ends + Names(a + b) == ends + Names(a) + Names(b)
  {
  }

  lemma EndNamesSkip(nodes: Nodes, done: seq<ReadyNode>, x: ReadyNode)
    requires x.nodeId !in Ends(nodes)
    ensures EndNames(nodes, done + [x]) == EndNames(nodes, done)
  {
    assert (done + [x])[..|done|] == done;
  }

  /** Any other node that finishes hands on to its successors. */
  lemma NodeFinishes(merge: bool, nodes: Nodes, g: Graph, r: Run, i: nat, out: Completion)
    requires Checked(merge, nodes, g) && RunPairs(merge, nodes, g, r) && i < |r.pending|
    requires var v := r.pending[i].nodeId;
             v !in Ends(nodes) && Typed(nodes, v, out.branch)
             && (merge ==> OnlyActivation(g, Snap(r.s, [], EndNames(nodes, r.done) + Names(WithoutAt(r.pending, i))),
                                          v))
    ensures RunPairs(merge, nodes, g, FinishWith(g, Ends(nodes), r, i, out))
  {
    hide PairsOk, Ok, OnlyActivation, Exec, CompleteAgenda, EndNames, Names, WithoutAt, BackLive, SingleRoutes,
         NothingReported;
    var v, ends, rest := r.pending[i].nodeId, EndNames(nodes, r.done), WithoutAt(r.pending, i);
    var s1, agenda := r.s.(outputs := r.s.outputs[v := out.data]), CompleteAgenda(g, v, out.branch);
    NamesWithout(ends, r.pending, i);
    CompleteOk(merge, nodes, g, r.s, ends + Names(r.pending), |ends| + i, out.branch, s1);
    CompleteAgendaTakes(g, v, out.branch);
    ExecOk(merge, nodes, g, Snap(s1, agenda, ends + Names(rest)));
    var more := Exec(g, s1, agenda).1;
    ExecReadies(nodes, g, s1, agenda);
    EndNamesSkip(nodes, r.done, r.pending[i]);
    NamesSum(ends, rest, more);
    PendingInNodes(nodes, r.pending, i, more);
  }

  lemma PendingInNodes(nodes: Nodes, ps: seq<ReadyNode>, i: nat, more: seq<ReadyNode>)
    requires i < |ps| && (forall k :: 0 <= k < |ps| ==> ps[k].nodeId in nodes)
             && (forall k :: 0 <= k < |more| ==> more[k].nodeId in nodes)
    ensures var all := WithoutAt(ps, i) + more; forall k :: 0 <= k < |all| ==> all[k].nodeId in nodes
  {
    var rest := WithoutAt(ps, i);
    assert forall k :: 0 <= k < |rest| ==> rest[k] == ps[if k < i then k else k + 1];
  }

  ghost predicate Activated(r: Run, x: ReadyNode) {
    x in r.pending || x in r.done
  }

  /** All END nodes that are ready, in flight or finished are the same node. */
  ghost predicate OneEnd(nodes: Nodes, r: Run) {
    forall x, y :: Activated(r, x) && Activated(r, y) && x.nodeId in Ends(nodes) && y.nodeId in Ends(nodes)
        ==> x.nodeId == y.nodeId
  }

  lemma PairsMeanOneEnd(merge: bool, nodes: Nodes, g: Graph, r: Run)
    requires RunPairs(merge, nodes, g, r)
    ensures OneEnd(nodes, r)
  {
    hide Compatible, EndFrom;
    var p := Activations(nodes, r);
    forall x, y | Activated(r, x) && Activated(r, y) && x.nodeId in Ends(nodes) && y.nodeId in Ends(nodes)
      ensures x.nodeId == y.nodeId
    {
      var i := ActivationOf(nodes, r, x);
      var j := ActivationOf(nodes, r, y);
      if i != j {
        assert Present(g, p, AtReady(i)) && Present(g, p, AtReady(j));
        assert Ok(merge, nodes, g, NodeAt(g, p, AtReady(i)), NodeAt(g, p, AtReady(j)));
        if x.nodeId != y.nodeId {
          EndsClash(nodes, g, x.nodeId, y.nodeId);
        }
      }
    }
  }

  lemma ActivationOf(nodes: Nodes, r: Run, x: ReadyNode) returns (i: nat)
    requires Activated(r, x) && x.nodeId in Ends(nodes)
    ensures i < |Activations(nodes, r).ready| && Activations(nodes, r).ready[i] == x.nodeId
  {
    var ends := EndNames(nodes, r.done);
    if x in r.done {
      var k :| 0 <= k < |r.done| && r.done[k] == x;
      assert x.nodeId in ends;
      i :| 0 <= i < |ends| && ends[i] == x.nodeId;
    } else {
      var k :| 0 <= k < |r.pending| && r.pending[k] == x;
      i := |ends| + k;
    }
  }

  /** The script's outcomes respect the node types. */
  ghost predicate TypedScript(nodes: Nodes, g: Graph, r: Run, script: seq<Turn>)
    decreases |script|
  {
    script != [] && r.pending != [] ==>
      var i := script[0].pick % |r.pending|;
      && (r.pending[i].nodeId !in Ends(nodes) ==> Typed(nodes, r.pending[i].nodeId, script[0].out.branch))
      && TypedScript(nodes, g, FinishWith(g, Ends(nodes), r, i, script[0].out), script[1..])
  }

  lemma BeginPairs(merge: bool, nodes: Nodes, g: Graph)
    requires Checked(merge, nodes, g)
    ensures RunPairs(merge, nodes, g, Begin(g))
  {
    var p := Activations(nodes, Begin(g));
    assert forall a :: Present(g, p, a) ==> a == AtReady(0);
  }

  lemma {:induction false} DrivePairs(nodes: Nodes, g: Graph, r: Run, script: seq<Turn>)
    requires Checked(false, nodes, g) && RunPairs(false, nodes, g, r) && TypedScript(nodes, g, r, script)
    ensures RunPairs(false, nodes, g, Drive(g, Ends(nodes), r, script))
    decreases |script|
  {
    hide Checked, RunPairs;
    if script != [] && r.pending != [] {
      var i := script[0].pick % |r.pending|;
      if r.pending[i].nodeId in Ends(nodes) {
        EndFinishes(false, nodes, g, r, i);
      } else {
        NodeFinishes(false, nodes, g, r, i, script[0].out);
      }
      hide FinishWith;
      DrivePairs(nodes, g, FinishWith(g, Ends(nodes), r, i, script[0].out), script[1..]);
    }
  }

  /**
   Soundness of the check on every graph, loops included. If nothing is reported and each outcome
   leaves a node by one edge per target, no run ever has two different END nodes ready or finished.
   */
  lemma {:induction false} NoTwoEnds(nodes: Nodes, g: Graph, script: seq<Turn>)
    requires Checked(false, nodes, g) && TypedScript(nodes, g, Begin(g), script)
    ensures OneEnd(nodes, Drive(g, Ends(nodes), Begin(g), script))
  {
    hide Checked, TypedScript, RunPairs;
    BeginPairs(false, nodes, g);
    DrivePairs(nodes, g, Begin(g), script);
    PairsMeanOneEnd(false, nodes, g, Drive(g, Ends(nodes), Begin(g), script));
  }

  /** On an acyclic graph a node that completes is nowhere activated a second time. */
  lemma CompletesOnce(nodes: Nodes, g: Graph, beh: C.Behaviour, rank: map<string, nat>, r: Run, l: C.Ledger, i: nat)
    requires C.RunInv(g, Ends(nodes), beh, rank, r, l) && i < |r.pending|
    ensures OnlyActivation(g, Snap(r.s, [], EndNames(nodes, r.done) + Names(WithoutAt(r.pending, i))),
                           r.pending[i].nodeId)
  {
    hide C.Fate, C.Carries, C.AgendaOk, C.BarrierOk, C.HoldsDelivered;
    var v, ends, rest := r.pending[i].nodeId, EndNames(nodes, r.done), WithoutAt(r.pending, i);
    var p := Snap(r.s, [], ends + Names(rest));
    assert v in l.ready.Keys - l.completed;
    assert C.TableOk(g, beh, rank, r.s, l, v);
    forall a | Present(g, p, a)
      ensures NodeAt(g, p, a) != v
    {
      if a.AtReady? && a.i < |ends| {
        assert ends[a.i] in ends;
      } else if a.AtReady? {
        var k := a.i - |ends|;
        assert rest[k] == r.pending[if k < i then k else k + 1];
      }
    }
  }

  lemma {:induction false} AcyclicPairs(nodes: Nodes, g: Graph, beh: C.Behaviour, rank: map<string, nat>, r: Run,
                                        l: C.Ledger, script: seq<Turn>)
    requires Checked(true, nodes, g) && RunPairs(true, nodes, g, r) && C.RunInv(g, Ends(nodes), beh, rank, r, l)
    requires TypedScript(nodes, g, r, script)
    ensures RunPairs(true, nodes, g, Drive(g, Ends(nodes), r, script))
    decreases |script|
  {
    hide Checked, PairsOk, C.RunInv, FinishWith, OnlyActivation, Typed;
    if script != [] && r.pending != [] {
      var i, out := script[0].pick % |r.pending|, script[0].out;
      if r.pending[i].nodeId in Ends(nodes) {
        EndFinishes(true, nodes, g, r, i);
        EndStep(nodes, g, r, i, out);
      } else {
        CompletesOnce(nodes, g, beh, rank, r, l, i);
        NodeFinishes(true, nodes, g, r, i, out);
      }
      var b, l1 := C.AnyFinishKeeps(g, Ends(nodes), beh, rank, r, i, out, l);
      AcyclicPairs(nodes, g, b, rank, FinishWith(g, Ends(nodes), r, i, out), l1, script[1..]);
    }
  }

  lemma EndStep(nodes: Nodes, g: Graph, r: Run, i: nat, out: Completion)
    requires i < |r.pending| && r.pending[i].nodeId in Ends(nodes)
    ensures FinishWith(g, Ends(nodes), r, i, out) == Run(r.s, WithoutAt(r.pending, i), r.done + [r.pending[i]])
  {
  }

  /**
   Soundness on acyclic graphs, where a node may have several edges to one target: every node runs
   at most once, so it is enough that each handle has one target.
   */
  lemma {:induction false} NoTwoEndsAcyclic(nodes: Nodes, g: Graph, finish: map<string, nat>, script: seq<Turn>)
    requires C.LoopFree(g, finish) && Checked(true, nodes, g) && TypedScript(nodes, g, Begin(g), script)
    ensures OneEnd(nodes, Drive(g, Ends(nodes), Begin(g), script))
  {
    hide Checked, RunPairs, OneEnd, C.RunInv, TypedScript;
    var rank := RankOf(g.start, finish);
    var beh: C.Behaviour := (n, input) => Completion(map[], None);
    C.LoopFreeIsLayered(g, finish);
    var l := C.BeginHolds(g, Ends(nodes), beh, rank);
    BeginPairs(true, nodes, g);
    AcyclicPairs(nodes, g, beh, rank, Begin(g), l, script);
    PairsMeanOneEnd(true, nodes, g, Drive(g, Ends(nodes), Begin(g), script));
  }
}
