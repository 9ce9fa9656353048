/**
 What the parallel loop's outcome owes to scheduling: nothing beyond what it makes node bodies do.
 Any run of it that finishes an acyclic workflow has run the fated nodes on the fated inputs, in
 whatever order tasks finished, and within the caps every run does finish.
 */
module ParallelOutcome {
  import opened Workflow
  import opened Collections
  import opened DagModel
  import opened DagRuns
  import opened Confluence
  import opened BackEdges
  import opened Execution
  import opened Navigator
  import opened ParallelEngine
  import ParallelEnds
  import Scheduler
  import Analysis = GraphAnalysis

  function LogOuts(log: seq<FinishedTask>): (r: seq<Completion>)
    ensures |r| == |log| && forall i :: 0 <= i < |r| ==> r[i] == Completion(log[i].data, log[i].branch)
  {
    seq(|log|, i requires 0 <= i < |log| => Completion(log[i].data, log[i].branch))
  }

  /** `beh` tells what each logged node did. */
  ghost predicate LogObeys(beh: Behaviour, log: seq<FinishedTask>) {
    Explains(beh, NodesDone(log), LogOuts(log))
  }

  /** The account of what nodes did, read off the log. */
  function MadeIn(log: seq<FinishedTask>): Behaviour {
    Made(NodesDone(log), LogOuts(log))
  }

  lemma {:induction false} DoneGrows(g: Graph, terminals: set<string>, r: Run, script: seq<Turn>)
    ensures r.done <= Drive(g, terminals, r, script).done
    decreases |script|
  {
    hide Complete;
    if script != [] && r.pending != [] {
      var next := FinishWith(g, terminals, r, script[0].pick % |r.pending|, script[0].out);
      DoneGrows(g, terminals, next, script[1..]);
      assert r.done <= next.done;
    }
  }

  /** A script whose outcomes fit the nodes they ended. */
  lemma {:induction false} ScriptIsTyped(nodes: Nodes, g: Graph, r: Run, script: seq<Turn>)
    requires var all := Drive(g, Ends(nodes), r, script).done;
             && |all| == |r.done| + |script|
             && forall i :: 0 <= i < |script| && all[|r.done| + i].nodeId !in Ends(nodes)
                            ==> Typed(nodes, all[|r.done| + i].nodeId, script[i].out.branch)
    ensures ParallelEnds.TypedScript(nodes, g, r, script)
    decreases |script|
  {
    hide Complete, Typed;
    if script != [] && r.pending != [] {
      var i := script[0].pick % |r.pending|;
      var next := FinishWith(g, Ends(nodes), r, i, script[0].out);
      DoneGrows(g, Ends(nodes), next, script[1..]);
      assert next.done == r.done + [r.pending[i]];
      var all := Drive(g, Ends(nodes), r, script).done;
      assert all[|r.done|] == r.pending[i];
      forall k | 0 <= k < |script[1..]| && all[|next.done| + k].nodeId !in Ends(nodes)
        ensures Typed(nodes, all[|next.done| + k].nodeId, script[1..][k].out.branch)
      {
        assert all[|next.done| + k] == all[|r.done| + (k + 1)] && script[1..][k] == script[k + 1];
      }
      ScriptIsTyped(nodes, g, next, script[1..]);
    }
  }

  /** The fated outcome as the log shows it. */
  ghost predicate FatedLog(g: Graph, beh: Behaviour, rank: map<string, nat>, log: seq<FinishedTask>, s: State)
    requires Layered(g, rank)
  {
    && (forall x :: x in NodesDone(log) <==> x in FatedRuns(g, beh, rank))
    && (forall i, j :: 0 <= i < j < |log| ==> log[i].task.ready.nodeId != log[j].task.ready.nodeId)
    && (forall n :: s.Tok(n) == map[])
  }

  /** What a finished run logged is the fated outcome of the workflow, by any account of the log. */
  lemma FinishedRunIsFated(g: Graph, terminals: set<string>, beh: Behaviour, finish: map<string, nat>,
                           script: seq<Turn>, log: seq<FinishedTask>, s: State)
    requires Runnable(g, terminals, finish)
    requires Mirrors(g, terminals, script, log, s, []) && LogObeys(beh, log)
    ensures Layered(g, RankOf(g.start, finish)) && FatedLog(g, beh, RankOf(g.start, finish), log, s)
  {
    hide Runnable, Drive, FatedRuns, Layered;
    assert Outs(script) == LogOuts(log);
    EndedRunIsFated(g, terminals, beh, finish, script);
    var r := Run(s, [], NodesDone(log));
    forall i, j | 0 <= i < j < |log| ensures log[i].task.ready.nodeId != log[j].task.ready.nodeId {
      assert r.done[i].nodeId != r.done[j].nodeId;
    }
  }

  /** On a loop-free workflow the log is an account of what its nodes did. */
  lemma LogIsAccounted(g: Graph, terminals: set<string>, finish: map<string, nat>, script: seq<Turn>,
                       log: seq<FinishedTask>, s: State, pending: seq<ReadyNode>)
    requires LoopFree(g, finish) && Mirrors(g, terminals, script, log, s, pending)
    ensures LogObeys(MadeIn(log), log)
  {
    hide LoopFree, Drive, Made, Explains;
    assert Outs(script) == LogOuts(log);
    RunIsAccounted(g, terminals, finish, script);
  }

  /**
   The parallel loop itself. Whenever it ends normally on a sound workflow it has run exactly the
   nodes fated by what its nodes did, on the fated inputs, each once, whatever the order in which
   tasks finished, and no token is left in its scheduler. Nothing is assumed of node bodies.
   */
  lemma LoopOutcomeIsFated(def: Definition, outcomes: nat -> Outcome, context: Context, steps: set<Step>, d: Folded,
                           g: Graph, finish: map<string, nat>, launches: seq<Task>, log: seq<FinishedTask>,
                           script: seq<Turn>)
    requires EndedNormally(def, outcomes, context, steps, d, g, finish, launches, log, script)
    requires Sound(g.start, Scheduler.TraversedEdges(def.Nodes().Keys, def.edges), Ends(def.Nodes()))
    ensures Layered(g, RankOf(g.start, finish)) && LogObeys(MadeIn(log), log)
    ensures exists s :: FatedLog(g, MadeIn(log), RankOf(g.start, finish), log, s)
  {
    hide Sound, SearchResult, Mirrors, FatedLog, Layered, Logged, Accounted, FoldOf, LogObeys, NodeMap, MadeIn;
    var s :| Mirrors(g, Ends(def.Nodes()), script, log, s, []);
    assert Runnable(g, Ends(def.Nodes()), finish);
    RunnableIsLayered(g, Ends(def.Nodes()), finish);
    LogIsAccounted(g, Ends(def.Nodes()), finish, script, log, s, []);
    FinishedRunIsFated(g, Ends(def.Nodes()), MadeIn(log), finish, script, log, s);
  }

  /** For node bodies that are functions of their input the fated nodes are those of the bodies: no order shows. */
  lemma LoopOutcomeOfBodies(def: Definition, outcomes: nat -> Outcome, context: Context, steps: set<Step>, d: Folded,
                            g: Graph, finish: map<string, nat>, launches: seq<Task>, log: seq<FinishedTask>,
                            script: seq<Turn>, beh: Behaviour)
    requires EndedNormally(def, outcomes, context, steps, d, g, finish, launches, log, script)
    requires Sound(g.start, Scheduler.TraversedEdges(def.Nodes().Keys, def.edges), Ends(def.Nodes()))
             && LogObeys(beh, log)
    ensures Layered(g, RankOf(g.start, finish))
    ensures exists s :: FatedLog(g, beh, RankOf(g.start, finish), log, s)
  {
    hide Sound, SearchResult, Mirrors, FatedLog, Layered, Logged, Accounted, FoldOf, LogObeys, NodeMap;
    var s :| Mirrors(g, Ends(def.Nodes()), script, log, s, []);
    assert Runnable(g, Ends(def.Nodes()), finish);
    FinishedRunIsFated(g, Ends(def.Nodes()), beh, finish, script, log, s);
  }

  lemma {:induction false} FirstEndIsLogged(log: seq<FinishedTask>) returns (i: nat)
    ensures FirstEnd(log).Some? ==> i < |log| && log[i].isEnd && FirstEnd(log) == Some(log[i].data)
                                    && forall k :: 0 <= k < i ==> !log[k].isEnd
    ensures FirstEnd(log).None? ==> forall k :: 0 <= k < |log| ==> !log[k].isEnd
  {
    i := 0;
    if log != [] {
      i := FirstEndIsLogged(log[..|log| - 1]);
      if FirstEnd(log[..|log| - 1]).None? {
        i := |log| - 1;
      }
    }
  }

  /** The static check sees the same arcs in the workflow's edges and in those the scheduler keeps. */
  lemma SameArcs(nodes: Nodes, edges: seq<Edge>)
    ensures ArcsOf(Analysis.ValidEdges(nodes, Scheduler.TraversedEdges(nodes.Keys, edges)))
            == ArcsOf(Analysis.ValidEdges(nodes, edges))
  {
    var kept := Analysis.ValidEdges(nodes, Scheduler.TraversedEdges(nodes.Keys, edges));
    var valid := Analysis.ValidEdges(nodes, edges);
    assert forall e :: e in kept <==> e in valid;
    SameEdgesSameArcs(kept, valid);
    SameEdgesSameArcs(valid, kept);
  }

  lemma SameEdgesSameArcs(a: seq<Edge>, b: seq<Edge>)
    requires forall e :: e in a ==> e in b
    ensures ArcsOf(a) <= ArcsOf(b)
  {
    forall x | x in ArcsOf(a) ensures x in ArcsOf(b) {
      var i :| 0 <= i < |a| && (a[i].source, a[i].target) == x;
      assert a[i] in b;
      var j :| 0 <= j < |b| && b[j] == a[i];
    }
  }

  /** Routers that finished chose a branch. */
  ghost predicate RoutersChose(nodes: Nodes, log: seq<FinishedTask>) {
    forall i :: 0 <= i < |log| && log[i].task.ready.nodeId in nodes && nodes[log[i].task.ready.nodeId] == Condition
                ==> log[i].branch.Some?
  }

  lemma LogIsTyped(nodes: Nodes, outcomes: nat -> Outcome, g: Graph, script: seq<Turn>, log: seq<FinishedTask>,
                   s: State)
    requires Mirrors(g, Ends(nodes), script, log, s, []) && Logged(nodes, outcomes, log) && RoutersChose(nodes, log)
    ensures ParallelEnds.TypedScript(nodes, g, Begin(g), script)
  {
    hide Drive, Mirrors, ParallelEnds.TypedScript, Typed, Logged, RoutersChose, NodesDone, Ends, LoggedTask;
    ScriptIsLog(g, Ends(nodes), script, log, s, []);
    var r := Begin(g);
    forall i | 0 <= i < |script| ensures Typed(nodes, NodesDone(log)[|r.done| + i].nodeId, script[i].out.branch) {
      LoggedIsTyped(nodes, outcomes, log, i);
    }
    ScriptIsTyped(nodes, g, r, script);
  }

  lemma ScriptIsLog(g: Graph, terminals: set<string>, script: seq<Turn>, log: seq<FinishedTask>, s: State,
                    pending: seq<ReadyNode>)
    requires Mirrors(g, terminals, script, log, s, pending)
    ensures Drive(g, terminals, Begin(g), script).done == NodesDone(log) && |script| == |log| == |NodesDone(log)|
    ensures forall i :: 0 <= i < |log| ==>
              NodesDone(log)[i] == log[i].task.ready && script[i].out.branch == log[i].branch
  {
    hide Drive;
  }

  lemma LoggedIsTyped(nodes: Nodes, outcomes: nat -> Outcome, log: seq<FinishedTask>, i: nat)
    requires Logged(nodes, outcomes, log) && RoutersChose(nodes, log) && i < |log|
    ensures Typed(nodes, log[i].task.ready.nodeId, log[i].branch)
  {
    assert LoggedTask(nodes, outcomes, log[i]);
  }

  /** Nothing is reported for the workflow, so all ENDs a finished run has run are one. */
  lemma LoggedEndsAreOne(def: Definition, outcomes: nat -> Outcome, g: Graph, finish: map<string, nat>,
                         script: seq<Turn>, log: seq<FinishedTask>, s: State, i: nat, j: nat)
    requires g.start in def.Nodes() && g.edges == Scheduler.TraversedEdges(def.Nodes().Keys, def.edges)
    requires LoopFree(g, finish) && Mirrors(g, Ends(def.Nodes()), script, log, s, [])
    requires Logged(def.Nodes(), outcomes, log) && RoutersChose(def.Nodes(), log)
    requires forall n :: !Analysis.ParallelEnd(def.Nodes(), ArcsOf(Analysis.ValidEdges(def.Nodes(), def.edges)), n)
    requires ParallelEnds.SingleRoutes(true, def.Nodes(), g)
    requires i < |log| && j < |log|
    requires log[i].task.ready.nodeId in Ends(def.Nodes()) && log[j].task.ready.nodeId in Ends(def.Nodes())
    ensures log[i].task.ready.nodeId == log[j].task.ready.nodeId
  {
    hide SearchResult, Drive, NodeMap, Logged, RoutersChose, Analysis.ParallelEnd, ArcsOf, ParallelEnds.SingleRoutes,
         ParallelEnds.TypedScript;
    SameArcs(def.Nodes(), def.edges);
    forall e | 0 <= e < |g.edges| ensures g.edges[e].target in def.Nodes() {
      assert g.edges[e] in g.edges;
    }
    assert ParallelEnds.Checked(true, def.Nodes(), g);
    LogIsTyped(def.Nodes(), outcomes, g, script, log, s);
    ParallelEnds.NoTwoEndsAcyclic(def.Nodes(), g, finish, script);
    assert NodesDone(log)[i] in NodesDone(log) && NodesDone(log)[j] in NodesDone(log);
  }

  /** The data of the END that is fated to run, if one is. */
  ghost predicate IsFatedOutput(nodes: Nodes, g: Graph, beh: Behaviour, rank: map<string, nat>, output: Payload)
    requires Layered(g, rank)
  {
    && (forall n :: n in Ends(nodes) && n in rank && Fate(g, beh, rank, n).Some?
                    ==> output == beh(n, Fate(g, beh, rank, n).value).data)
    && ((forall n :: n in Ends(nodes) && n in rank ==> Fate(g, beh, rank, n).None?) ==> output == map[])
  }

  /**
   What the loop returns. On a sound workflow for which the check of parallel ENDs reports nothing,
   the output of a run that ends normally is the data of the one END fated to run, whatever the
   order in which tasks finished; it is empty when no END is.
   */
  lemma LoopOutputIsFated(def: Definition, outcomes: nat -> Outcome, context: Context, steps: set<Step>, d: Folded,
                          g: Graph, finish: map<string, nat>, launches: seq<Task>, log: seq<FinishedTask>,
                          script: seq<Turn>)
    requires EndedNormally(def, outcomes, context, steps, d, g, finish, launches, log, script)
    requires Sound(g.start, Scheduler.TraversedEdges(def.Nodes().Keys, def.edges), Ends(def.Nodes()))
    requires forall n :: !Analysis.ParallelEnd(def.Nodes(), ArcsOf(Analysis.ValidEdges(def.Nodes(), def.edges)), n)
    requires ParallelEnds.SingleRoutes(true, def.Nodes(), g) && RoutersChose(def.Nodes(), log)
    ensures Layered(g, RankOf(g.start, finish))
    ensures IsFatedOutput(def.Nodes(), g, MadeIn(log), RankOf(g.start, finish), d.finalOutput)
  {
    hide Sound, SearchResult, Mirrors, Layered, Accounted, NodeMap, Fate, Logged, Analysis.ParallelEnd, ArcsOf,
         ParallelEnds.SingleRoutes, RoutersChose, Traced, FoldState, FirstEnd, FatedLog, LogObeys, MadeIn,
             IsFatedOutput;
    var s :| Mirrors(g, Ends(def.Nodes()), script, log, s, []);
    var rank := RankFor(g, finish);
    assert Runnable(g, Ends(def.Nodes()), finish);
    RunnableIsLayered(g, Ends(def.Nodes()), finish);
    LogIsAccounted(g, Ends(def.Nodes()), finish, script, log, s, []);
    FinishedRunIsFated(g, Ends(def.Nodes()), MadeIn(log), finish, script, log, s);
    StartIsKnown(def, g.start);
    forall i, j | 0 <= i < |log| && 0 <= j < |log| && log[i].task.ready.nodeId in Ends(def.Nodes())
                  && log[j].task.ready.nodeId in Ends(def.Nodes())
      ensures log[i].task.ready.nodeId == log[j].task.ready.nodeId
    {
      LoggedEndsAreOne(def, outcomes, g, finish, script, log, s, i, j);
    }
    OneEndIsOutput(def.Nodes(), outcomes, g, MadeIn(log), rank, log, s, d.finalOutput);
  }

  lemma RankFor(g: Graph, finish: map<string, nat>) returns (rank: map<string, nat>)
    requires SearchResult(g.start, g.edges, g.back, finish)
    ensures g.start in finish && (forall u :: u in finish ==> finish[u] <= finish[g.start])
    ensures rank == RankOf(g.start, finish)
  {
    rank := RankOf(g.start, finish);
  }

  /** If all ENDs that ran are one, the output captured is its data. */
  lemma OneEndIsOutput(nodes: Nodes, outcomes: nat -> Outcome, g: Graph, beh: Behaviour, rank: map<string, nat>,
                       log: seq<FinishedTask>, s: State, output: Payload)
    requires Layered(g, rank) && FatedLog(g, beh, rank, log, s) && LogObeys(beh, log) && Logged(nodes, outcomes, log)
    requires output == if FirstEnd(log).Some? then FirstEnd(log).value else map[]
    requires forall i, j :: 0 <= i < |log| && 0 <= j < |log| && log[i].task.ready.nodeId in Ends(nodes)
                            && log[j].task.ready.nodeId in Ends(nodes)
                            ==> log[i].task.ready.nodeId == log[j].task.ready.nodeId
    ensures IsFatedOutput(nodes, g, beh, rank, output)
  {
    hide Layered, Fate, FatedLog, Logged, FirstEnd;
    var first := FirstEndIsLogged(log);
    forall n | n in Ends(nodes) && n in rank && Fate(g, beh, rank, n).Some?
      ensures output == beh(n, Fate(g, beh, rank, n).value).data
    {
      var i := FatedIsLogged(g, beh, rank, log, s, n);
      LoggedIsEnd(nodes, outcomes, log, i);
      LoggedIsEnd(nodes, outcomes, log, first);
      FatedLogDistinct(g, beh, rank, log, s, first, i);
      assert beh(NodesDone(log)[i].nodeId, NodesDone(log)[i].inputData) == LogOuts(log)[i];
    }
    if FirstEnd(log).Some? {
      LoggedIsEnd(nodes, outcomes, log, first);
      LoggedIsFated(g, beh, rank, log, s, first);
    }
  }

  /** Distinct nodes of a set are no more than the set has. */
  lemma {:induction false} ApartFit(rs: seq<ReadyNode>, nodes: set<string>)
    requires Apart(rs) && forall i :: 0 <= i < |rs| ==> rs[i].nodeId in nodes
    ensures |rs| <= |nodes|
  {
    if rs != [] {
      var init, last := rs[..|rs| - 1], rs[|rs| - 1];
      ApartFit(init, nodes - {last.nodeId});
      assert |nodes - {last.nodeId}| == |nodes| - 1;
    }
  }

  /** Every launch is in flight or done, and there are as many launches as of these. */
  lemma LaunchesAreKnown(launches: seq<Task>, running: seq<Task>, log: seq<FinishedTask>)
    requires Accounted(launches, running, log)
    ensures |launches| == |running| + |log|
    ensures forall k :: 0 <= k < |launches| ==>
              launches[k].ready in Launched(running) || launches[k].ready in NodesDone(log)
  {
    assert |multiset(launches)| == |multiset(running)| + |multiset(Tasks(log))|;
    forall k | 0 <= k < |launches|
      ensures launches[k].ready in Launched(running) || launches[k].ready in NodesDone(log)
    {
      assert launches[k] in multiset(launches);
      if launches[k] in running {
        var i :| 0 <= i < |running| && running[i] == launches[k];
        assert Launched(running)[i] == launches[k].ready;
      } else {
        var i :| 0 <= i < |log| && Tasks(log)[i] == launches[k];
        assert NodesDone(log)[i] == launches[k].ready;
      }
    }
  }

  /** A node still waiting to be launched has not been, so no cap is used up. */
  lemma WaitingFits(g: Graph, terminals: set<string>, finish: map<string, nat>, launches: seq<Task>,
                    running: seq<Task>, waiting: seq<ReadyNode>, log: seq<FinishedTask>, script: seq<Turn>, s: State)
    requires LoopFree(g, finish) && Mirrors(g, terminals, script, log, s, Launched(running) + waiting)
    requires Accounted(launches, running, log) && waiting != []
    ensures |launches| < |finish|
    ensures forall k :: 0 <= k < |launches| ==> launches[k].ready.nodeId != waiting[0].nodeId
  {
    hide LoopFree, Drive, Accounted;
    NodesRunOnce(g, terminals, finish, script);
    var all := NodesDone(log) + (Launched(running) + waiting);
    ApartFit(all, finish.Keys);
    LaunchesAreKnown(launches, running, log);
    assert all[|log| + |running|] == waiting[0];
    forall k | 0 <= k < |launches| ensures launches[k].ready.nodeId != waiting[0].nodeId {
      if launches[k].ready in Launched(running) {
        var i :| 0 <= i < |running| && Launched(running)[i] == launches[k].ready;
        assert all[|log| + i] == launches[k].ready;
      } else {
        var i :| 0 <= i < |log| && NodesDone(log)[i] == launches[k].ready;
        assert all[i] == launches[k].ready;
      }
    }
  }

  lemma NotVisited(launches: seq<Task>, base: nat, ctx: Context, n: string)
    requires Numbered(launches, base, ctx.visited) && ctx.Bounded(base)
    requires forall k :: 0 <= k < |launches| ==> launches[k].ready.nodeId != n
    ensures ctx.Count(n) == 0 && ctx.stepNumber == base + |launches|
  {
    assert n !in ctx.visited;
  }

  /**
   When the loop ends normally. On a workflow without reachable cycles whose nodes do not fail, with
   steps left for each reachable node and at least one execution per node, no cap is ever met: each
   node runs at most once.
   */
  lemma LoopEndsNormally(def: Definition, outcomes: nat -> Outcome, context: Context, steps: set<Step>, ending: Ending,
                         ctx: Context, rows: set<Step>, g: Graph, finish: map<string, nat>, launches: seq<Task>,
                         log: seq<FinishedTask>, script: seq<Turn>)
    requires ending.Finished? || Halted(def, outcomes, context, steps, ending, ctx, rows, g, launches, log, script)
    requires Numbered(launches, context.stepNumber, ctx.visited) && ctx.Bounded(context.stepNumber)
    requires RightlyCapped(ending, ctx)
    requires ctx.maxSteps == context.maxSteps && ctx.maxNodeExecutions == context.maxNodeExecutions
    requires LoopFree(g, finish) && forall k: nat :: outcomes(k).Done?
    requires context.stepNumber + |finish| <= context.maxSteps && 1 <= context.maxNodeExecutions
    ensures ending.Finished?
  {
    hide LoopFree, Mirrors, Accounted, Numbered, Context.Bounded, NodeMap, Traced, FoldState;
    if !ending.Finished? {
      var s: State, running: seq<Task>, waiting: seq<ReadyNode>, recorded: set<Step> :|
        Mirrors(g, Ends(def.Nodes()), script, log, s, Launched(running) + waiting)
        && Accounted(launches, running, log) && Traced(recorded, steps, context.state, log)
        && Stuck(def.Nodes(), outcomes, ending, running, waiting, recorded, rows);
      assert waiting != [] && StoppedAt(ending, waiting[0].nodeId);
      WaitingFits(g, Ends(def.Nodes()), finish, launches, running, waiting, log, script, s);
      NotVisited(launches, context.stepNumber, ctx, waiting[0].nodeId);
      assert false;
    }
  }

  lemma StartIsKnown(def: Definition, start: string)
    requires FindStartNode(def.nodeList) == Found(start)
    ensures start in def.Nodes()
  {
    FindStartNodeIffUnique(def.nodeList, start);
  }

  /** A fated node is logged once finished, on its fated input. */
  lemma FatedIsLogged(g: Graph, beh: Behaviour, rank: map<string, nat>, log: seq<FinishedTask>, s: State, n: string)
    returns (i: nat)
    requires Layered(g, rank) && FatedLog(g, beh, rank, log, s) && n in rank && Fate(g, beh, rank, n).Some?
    ensures i < |log| && log[i].task.ready == ReadyNode(n, Fate(g, beh, rank, n).value)
  {
    hide Fate, Layered;
    var x := ReadyNode(n, Fate(g, beh, rank, n).value);
    assert x in FatedRuns(g, beh, rank);
    i :| 0 <= i < |NodesDone(log)| && NodesDone(log)[i] == x;
  }

  lemma LoggedIsFated(g: Graph, beh: Behaviour, rank: map<string, nat>, log: seq<FinishedTask>, s: State, i: nat)
    requires Layered(g, rank) && FatedLog(g, beh, rank, log, s) && i < |log|
    ensures log[i].task.ready.nodeId in rank && Fate(g, beh, rank, log[i].task.ready.nodeId).Some?
  {
    hide Fate, Layered;
    assert NodesDone(log)[i] in NodesDone(log);
  }

  lemma FatedLogDistinct(g: Graph, beh: Behaviour, rank: map<string, nat>, log: seq<FinishedTask>, s: State, i: nat,
                         j: nat)
    requires Layered(g, rank) && FatedLog(g, beh, rank, log, s) && i < |log| && j < |log|
    requires log[i].task.ready.nodeId == log[j].task.ready.nodeId
    ensures i == j
  {
  }

  lemma LoggedIsEnd(nodes: Nodes, outcomes: nat -> Outcome, log: seq<FinishedTask>, i: nat)
    requires Logged(nodes, outcomes, log) && i < |log|
    ensures log[i].isEnd <==> log[i].task.ready.nodeId in Ends(nodes)
  {
    assert LoggedTask(nodes, outcomes, log[i]);
  }
}
