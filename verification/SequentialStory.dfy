/**
 What a run of the sequential loop looks like from outside: a list of visits, each to the node the
 previous one leads to, on the input the previous one produced, in the state the previous ones
 wrote. The scheduler, driven through the same visits, has run the same nodes.
 */
module SequentialStory {
  import opened Workflow
  import opened Navigator
  import opened Execution
  import opened SequentialEngine
  import opened DagModel
  import opened DagRuns
  import opened BackEdges
  import Agreement = EngineAgreement

  datatype Visit = Visit(nodeId: string, input: Payload, data: Payload, updates: Payload)

  function StateAfter(initial: Payload, visits: seq<Visit>): Payload {
    if visits == [] then initial
    else StateAfter(initial, visits[..|visits| - 1]) + visits[|visits| - 1].updates
  }

  /** What the next node reads. */
  function Handed(visits: seq<Visit>): Payload {
    if visits == [] then map[] else visits[|visits| - 1].data
  }

  function NodeIds(visits: seq<Visit>): (r: seq<string>)
    ensures |r| == |visits| && forall i :: 0 <= i < |r| ==> r[i] == visits[i].nodeId
  {
    seq(|visits|, i requires 0 <= i < |visits| => visits[i].nodeId)
  }

  ghost predicate Placed(def: Definition, visits: seq<Visit>) {
    forall i :: 0 <= i < |visits| ==> visits[i].nodeId in def.Nodes()
  }

  /** The row the last visit leaves. */
  function LastRow(def: Definition, initial: Payload, visits: seq<Visit>): Step
    requires visits != [] && visits[|visits| - 1].nodeId in def.Nodes()
  {
    var v := visits[|visits| - 1];
    Step(|visits| - 1, v.nodeId, def.Nodes()[v.nodeId], v.input, Persisted(v.data), StateAfter(initial, visits),
         Completed)
  }

  /** One row per visit, numbered from zero. */
  function RowsOf(def: Definition, initial: Payload, visits: seq<Visit>): set<Step>
    requires Placed(def, visits)
  {
    if visits == [] then {}
    else RowsOf(def, initial, visits[..|visits| - 1]) + {LastRow(def, initial, visits)}
  }

  /** One visit in the light of those before it. */
  ghost predicate VisitOk(def: Definition, body: Body, initial: Context, before: seq<Visit>, v: Visit)
    requires Placed(def, before)
  {
    && v.nodeId in def.Nodes() && def.Nodes()[v.nodeId] != End
    && |before| < initial.maxSteps && multiset(NodeIds(before))[v.nodeId] < initial.maxNodeExecutions
    && v.input == (if def.Nodes()[v.nodeId] == Start then initial.inputData else Handed(before))
    && var outcome := body(v.nodeId, v.input, StateAfter(initial.state, before), RowsOf(def, initial.state, before));
       outcome.Done? && outcome.data == v.data && outcome.updates == v.updates
  }

  ghost function NextOf(def: Definition, v: Visit): Option<string>
    requires v.nodeId in def.Nodes()
  {
    FindNextNode(def.edges, def.Nodes().Keys, v.nodeId, BranchOf(def.Nodes()[v.nodeId], v.data))
  }

  /** A run from `start` that made these visits and is now about to run `current`. */
  ghost predicate Story(def: Definition, body: Body, initial: Context, start: string, visits: seq<Visit>,
                        current: string)
    decreases |visits|
  {
    if visits == [] then current == start
    else
      var before, v := visits[..|visits| - 1], visits[|visits| - 1];
      && Placed(def, before)
      && Story(def, body, initial, start, before, v.nodeId)
      && VisitOk(def, body, initial, before, v)
      && NextOf(def, v) == Some(current)
  }

  function PositionOf(def: Definition, initial: Context, visits: seq<Visit>, current: string,
                      counts: map<string, nat>): Position
    requires Placed(def, visits)
  {
    Position(initial.(state := StateAfter(initial.state, visits), stepNumber := |visits|, visited := NodeIds(visits),
                      counts := counts),
             current, Handed(visits), RowsOf(def, initial.state, visits))
  }

  ghost predicate At(def: Definition, initial: Context, visits: seq<Visit>, p: Position)
    requires Placed(def, visits)
  {
    p == PositionOf(def, initial, visits, p.current, p.ctx.counts) && p.ctx.CountsVisits()
  }

  lemma {:induction false} RowsAreNumbered(def: Definition, initial: Payload, visits: seq<Visit>)
    requires Placed(def, visits)
    ensures forall s :: s in RowsOf(def, initial, visits) ==> s.stepNumber < |visits|
  {
    if visits != [] {
      RowsAreNumbered(def, initial, visits[..|visits| - 1]);
    }
  }

  lemma {:induction false} StoryIsPlaced(def: Definition, body: Body, initial: Context, start: string,
                                         visits: seq<Visit>, current: string)
    requires Story(def, body, initial, start, visits, current) && start in def.Nodes()
    ensures Placed(def, visits) && current in def.Nodes()
  {
    hide NodeMap, FindNextNode;
    if visits != [] {
      var before, v := visits[..|visits| - 1], visits[|visits| - 1];
      NextIsNode(def.edges, def.Nodes().Keys, v.nodeId, BranchOf(def.Nodes()[v.nodeId], v.data));
      assert visits == before + [v];
    }
  }

  lemma OneMoreVisit(def: Definition, initial: Payload, before: seq<Visit>, v: Visit)
    requires Placed(def, before) && v.nodeId in def.Nodes()
    ensures var all := before + [v];
            && Placed(def, all) && NodeIds(all) == NodeIds(before) + [v.nodeId] && Handed(all) == v.data
            && StateAfter(initial, all) == StateAfter(initial, before) + v.updates
            && RowsOf(def, initial, all) == RowsOf(def, initial, before) +
               {Step(|before|, v.nodeId, def.Nodes()[v.nodeId], v.input, Persisted(v.data),
                     StateAfter(initial, before) + v.updates, Completed)}
  {
    assert (before + [v])[..|before|] == before;
  }

  /** The round that makes one more visit. */
  lemma RoundVisits(def: Definition, body: Body, initial: Context, before: seq<Visit>, p: Position, v: Visit)
    requires Placed(def, before) && At(def, initial, before, p) && p.current in def.Nodes() && v.nodeId == p.current
    requires VisitOk(def, body, initial, before, v) && NextOf(def, v).Some?
    ensures Round(def, body, p).Goes? && Round(def, body, p).p.current == NextOf(def, v).value
    ensures Placed(def, before + [v]) && At(def, initial, before + [v], Round(def, body, p).p)
  {
    hide NodeMap, FindNextNode, Context.CountsVisits, RowsOf, StateAfter, NodeIds, Handed;
    CountsTell(p.ctx, p.current);
    OneMoreVisit(def, initial.state, before, v);
    RowsAreNumbered(def, initial.state, before);
    assert !HasStep(p.steps, |before|);
    StateKeepsCounts(p.ctx, v.updates);
    VisitCounts(p.ctx.WithState(v.updates), p.current);
  }

  lemma CountsTell(ctx: Context, n: string)
    requires ctx.CountsVisits()
    ensures ctx.Count(n) == multiset(ctx.visited)[n]
  {
  }

  /** A round that goes on is a visit. */
  lemma RoundIsVisit(def: Definition, body: Body, initial: Context, before: seq<Visit>, p: Position) returns (v: Visit)
    requires Placed(def, before) && At(def, initial, before, p) && p.current in def.Nodes() && Round(def, body, p).Goes?
    ensures v.nodeId == p.current && VisitOk(def, body, initial, before, v) && NextOf(def, v).Some?
  {
    hide NodeMap, FindNextNode, Context.CountsVisits;
    CountsTell(p.ctx, p.current);
    var kind := def.Nodes()[p.current];
    var outcome := body(p.current, InputOf(p, kind), p.ctx.state, p.steps);
    v := Visit(p.current, InputOf(p, kind), outcome.data, outcome.updates);
  }

  lemma {:induction false} AfterOneMore(def: Definition, body: Body, p: Position, k: nat)
    requires p.current in def.Nodes() && After(def, body, p, k).Some?
    ensures var q := After(def, body, p, k).value;
            q.current in def.Nodes() &&
            After(def, body, p, k + 1) == match Round(def, body, q) case Goes(q') => Some(q') case Stops(_) => None
    decreases k
  {
    hide Round;
    if k > 0 {
      AfterOneMore(def, body, Round(def, body, p).p, k - 1);
    }
  }

  lemma {:induction false} NoneAfterNone(def: Definition, body: Body, p: Position, k: nat)
    requires p.current in def.Nodes() && After(def, body, p, k).None?
    ensures After(def, body, p, k + 1).None?
    decreases k
  {
    hide Round;
    if k > 0 && Round(def, body, p).Goes? {
      NoneAfterNone(def, body, Round(def, body, p).p, k - 1);
    }
  }

  lemma StoryBegins(def: Definition, initial: Context, start: string)
    requires initial.Bounded(0) && initial.visited == [] && initial.counts == map[]
    ensures At(def, initial, [], Origin(initial, start))
  {
  }

  /** Every story is a run: the loop makes exactly these visits and is where the story says. */
  lemma {:induction false} StoryIsRun(def: Definition, body: Body, initial: Context, start: string, visits: seq<Visit>,
                                      current: string)
    requires start in def.Nodes() && initial.Bounded(0) && initial.visited == [] && initial.counts == map[]
    requires Story(def, body, initial, start, visits, current)
    ensures Placed(def, visits)
    ensures var p := After(def, body, Origin(initial, start), |visits|);
            p.Some? && p.value.current == current && At(def, initial, visits, p.value)
    decreases |visits|
  {
    hide NodeMap, Round, After, At, VisitOk, Context.Bounded, NextOf, RowsOf;
    StoryIsPlaced(def, body, initial, start, visits, current);
    var origin := Origin(initial, start);
    if visits == [] {
      StoryBegins(def, initial, start);
      AfterNothing(def, body, origin);
    } else {
      var before, v := visits[..|visits| - 1], visits[|visits| - 1];
      StoryIsRun(def, body, initial, start, before, v.nodeId);
      AfterOneMore(def, body, origin, |before|);
      RoundVisits(def, body, initial, before, After(def, body, origin, |before|).value, v);
      assert visits == before + [v];
    }
  }

  lemma AfterNothing(def: Definition, body: Body, p: Position)
    requires p.current in def.Nodes()
    ensures After(def, body, p, 0) == Some(p)
  {
  }

  /** Every run is a story. */
  lemma {:induction false} RunIsStory(def: Definition, body: Body, initial: Context, start: string, k: nat)
    returns (visits: seq<Visit>)
    requires start in def.Nodes() && initial.Bounded(0) && initial.visited == [] && initial.counts == map[]
    requires After(def, body, Origin(initial, start), k).Some?
    ensures var p := After(def, body, Origin(initial, start), k).value;
            && |visits| == k && Story(def, body, initial, start, visits, p.current)
            && Placed(def, visits) && At(def, initial, visits, p)
    decreases k
  {
    hide NodeMap, Round, After, At, VisitOk, Context.Bounded;
    var origin := Origin(initial, start);
    visits := [];
    if k == 0 {
      StoryBegins(def, initial, start);
      AfterNothing(def, body, origin);
    } else {
      if After(def, body, origin, k - 1).None? {
        NoneAfterNone(def, body, origin, k - 1);
      }
      var before := RunIsStory(def, body, initial, start, k - 1);
      AfterOneMore(def, body, origin, k - 1);
      var p := After(def, body, origin, k - 1).value;
      var v := RoundIsVisit(def, body, initial, before, p);
      RoundVisits(def, body, initial, before, p, v);
      visits := before + [v];
      assert visits[..k - 1] == before;
    }
  }

  /** The completions the visits stand for. */
  function ScriptOf(def: Definition, visits: seq<Visit>): (r: seq<Turn>)
    requires forall i :: 0 <= i < |visits| ==> visits[i].nodeId in def.Nodes()
    ensures |r| == |visits|
  {
    seq(|visits|, i requires 0 <= i < |visits| =>
          Turn(0, Completion(visits[i].data, BranchOf(def.Nodes()[visits[i].nodeId], visits[i].data))))
  }

  /** The activations the visits stand for. */
  function ActivationsOf(visits: seq<Visit>): (r: seq<ReadyNode>)
    ensures |r| == |visits| && forall i :: 0 <= i < |r| ==> r[i] == ReadyNode(visits[i].nodeId, Handed(visits[..i]))
  {
    seq(|visits|, i requires 0 <= i < |visits| => ReadyNode(visits[i].nodeId, Handed(visits[..i])))
  }

  /** Routers output the index of the branch they chose. */
  ghost predicate RoutersChoose(def: Definition, body: Body) {
    forall n, input, state, steps ::
        n in def.Nodes() && def.Nodes()[n] == Condition && body(n, input, state, steps).Done? ==>
      BranchOf(Condition, body(n, input, state, steps).data).Some?
  }

  ghost function AtStart(start: string): Agreement.Walk {
    Agreement.Walk(Some(ReadyNode(start, map[])), [])
  }

  /** A visit is one round of the walk. */
  lemma VisitAdvances(def: Definition, body: Body, initial: Context, before: seq<Visit>, v: Visit, w: Agreement.Walk)
    requires Placed(def, before) && RoutersChoose(def, body) && VisitOk(def, body, initial, before, v)
             && NextOf(def, v).Some?
    requires w.current == Some(ReadyNode(v.nodeId, Handed(before)))
    ensures var branch := BranchOf(def.Nodes()[v.nodeId], v.data);
            && Agreement.Advance(def.Nodes(), def.edges, w, Completion(v.data, branch)) ==
               Agreement.Walk(Some(ReadyNode(NextOf(def, v).value, v.data)),
                              w.done + [ReadyNode(v.nodeId, Handed(before))])
            && Typed(def.Nodes(), v.nodeId, branch)
  {
    hide NodeMap, FindNextNode, RowsOf, StateAfter;
  }

  lemma {:induction false} WalkOneMore(nodes: Nodes, edges: seq<Edge>, w: Agreement.Walk, script: seq<Turn>, turn: Turn)
    requires Agreement.WalkOn(nodes, edges, w, script).current.Some?
    ensures var mid := Agreement.WalkOn(nodes, edges, w, script);
            && Agreement.WalkOn(nodes, edges, w, script + [turn]) == Agreement.Advance(nodes, edges, mid, turn.out)
            && (Agreement.TypedWalk(nodes, edges, w, script)
                && Typed(nodes, mid.current.value.nodeId, turn.out.branch) ==>
                  Agreement.TypedWalk(nodes, edges, w, script + [turn]))
    decreases |script|
  {
    hide Agreement.Advance;
    if script == [] {
      assert script + [turn] == [turn] && [turn][1..] == [];
    } else if w.current.Some? {
      assert (script + [turn])[1..] == script[1..] + [turn];
      WalkOneMore(nodes, edges, Agreement.Advance(nodes, edges, w, script[0].out), script[1..], turn);
    }
  }

  /** The walk of the engine-agreement result is the story of the loop. */
  lemma {:induction false} StoryIsWalk(def: Definition, body: Body, initial: Context, start: string, visits: seq<Visit>,
                                       current: string)
    requires start in def.Nodes() && RoutersChoose(def, body) && Story(def, body, initial, start, visits, current)
    ensures Placed(def, visits)
    ensures var w := Agreement.WalkOn(def.Nodes(), def.edges, AtStart(start), ScriptOf(def, visits));
            w.done == ActivationsOf(visits) && w.current == Some(ReadyNode(current, Handed(visits)))
    ensures Agreement.TypedWalk(def.Nodes(), def.edges, AtStart(start), ScriptOf(def, visits))
    decreases |visits|
  {
    hide NodeMap, FindNextNode, Agreement.WalkOn, Agreement.TypedWalk, Agreement.Advance, VisitOk, NextOf,
         RoutersChoose, ScriptOf, ActivationsOf;
    StoryIsPlaced(def, body, initial, start, visits, current);
    if visits == [] {
      NothingWalked(def.Nodes(), def.edges, start);
    } else {
      var before, v := visits[..|visits| - 1], visits[|visits| - 1];
      StoryIsWalk(def, body, initial, start, before, v.nodeId);
      var turn := Turn(0, Completion(v.data, BranchOf(def.Nodes()[v.nodeId], v.data)));
      ScriptGrows(def, before, v);
      WalkOneMore(def.Nodes(), def.edges, AtStart(start), ScriptOf(def, before), turn);
      VisitAdvances(def, body, initial, before, v,
                    Agreement.WalkOn(def.Nodes(), def.edges, AtStart(start), ScriptOf(def, before)));
      ActivationsGrow(before, v);
      assert visits == before + [v];
    }
  }

  lemma ScriptGrows(def: Definition, before: seq<Visit>, v: Visit)
    requires Placed(def, before) && v.nodeId in def.Nodes()
    ensures ScriptOf(def, before + [v])
            == ScriptOf(def, before) + [Turn(0, Completion(v.data, BranchOf(def.Nodes()[v.nodeId], v.data)))]
  {
    hide NodeMap;
  }

  lemma ActivationsGrow(before: seq<Visit>, v: Visit)
    ensures ActivationsOf(before + [v]) == ActivationsOf(before) + [ReadyNode(v.nodeId, Handed(before))]
  {
    var all := before + [v];
    forall i | 0 <= i <= |before| ensures all[..i] == before[..i] {
    }
  }

  lemma NothingWalked(nodes: Nodes, edges: seq<Edge>, start: string)
    ensures Agreement.WalkOn(nodes, edges, AtStart(start), []) == AtStart(start)
    ensures Agreement.TypedWalk(nodes, edges, AtStart(start), [])
  {
  }

  /**
   The two loops agree. Where the executor picks the sequential engine, the scheduler driven through
   the visits of a sequential run has run the same nodes on the same inputs in the same order, has
   exactly the loop's current node in flight on the loop's previous output, and holds no token.
   */
  lemma LoopAgreesWithScheduler(def: Definition, body: Body, initial: Context, g: Graph, finish: map<string, nat>,
                                k: nat) returns (visits: seq<Visit>)
    requires g.start in def.Nodes() && initial.Bounded(0) && initial.visited == [] && initial.counts == map[]
             && RoutersChoose(def, body)
    requires Agreement.Sequential(def.Nodes(), def.edges, g, finish) && Agreement.ClearExits(def.Nodes(), g)
    requires After(def, body, Origin(initial, g.start), k).Some?
    ensures |visits| == k && Placed(def, visits)
            && At(def, initial, visits, After(def, body, Origin(initial, g.start), k).value)
    ensures var p, r := After(def, body, Origin(initial, g.start), k).value,
            Drive(g, Ends(def.Nodes()), Begin(g), ScriptOf(def, visits));
            r.done == ActivationsOf(visits) && r.pending == [ReadyNode(p.current, p.previous)]
                && Agreement.AllEmpty(r.s)
  {
    hide NodeMap, Agreement.Sequential, Agreement.ClearExits, Agreement.WalkOn, Agreement.TypedWalk, Drive, Round,
         After, Context.Bounded, Story;
    visits := RunIsStory(def, body, initial, g.start, k);
    var p := After(def, body, Origin(initial, g.start), k).value;
    StoryIsWalk(def, body, initial, g.start, visits, p.current);
    Agreement.EnginesAgree(def.Nodes(), def.edges, g, finish, ScriptOf(def, visits));
  }
}
