/**
 When a resumed run gives the result of the uninterrupted one although its node counters begin at
 zero: a condition on the graph and the caps, known before the run is resumed, and a workflow that
 fails it.
 */
module ResumeLimits {
  import opened Workflow
  import opened Digraph
  import opened BackEdges
  import opened GraphAnalysis
  import opened Navigator
  import opened Execution
  import opened SequentialEngine
  import opened Resume
  import opened Executor
  import JoinInLoop

  /** No node visited before the cut can run into its limit after it, by reachability or by the steps left. */
  ghost predicate Spared(arcs: Arcs, cut: string, before: seq<string>, initial: Context) {
    forall n :: n in before && Reaches(arcs, cut, n)
                ==> multiset(before)[n] + initial.maxSteps - |before| <= initial.maxNodeExecutions
  }

  /** The edge a round takes is one of the workflow's. */
  lemma RoundTakesEdge(def: Definition, body: Body, p: Position)
    requires p.current in def.Nodes() && Round(def, body, p).Goes?
    ensures var q := Round(def, body, p).p;
            && (p.current, q.current) in ArcsOfDefinition(def)
            && q.ctx.visited == p.ctx.visited + [p.current] && q.ctx.maxNodeExecutions == p.ctx.maxNodeExecutions
  {
    hide FindNextNode, NodeMap, ValidEdges, LogStep;
    var kind := def.Nodes()[p.current];
    var outcome := body(p.current, InputOf(p, kind), p.ctx.state, p.steps);
    var branch := BranchOf(kind, outcome.data);
    var i: nat :| IsFirst(def.edges, def.Nodes().Keys, p.current, branch, i)
        && def.edges[i].target == Round(def, body, p).p.current;
    var valid := ValidEdges(def.Nodes(), def.edges);
    assert def.edges[i] in valid;
    var e: nat :| e < |valid| && valid[e] == def.edges[i];
    assert (valid[e].source, valid[e].target) in ArcsOf(valid);
  }

  lemma SparedCount(ctx: Context, n: string, before: seq<string>, initial: Context)
    requires ctx.Bounded(0) && before <= ctx.visited && ctx.stepNumber < ctx.maxSteps == initial.maxSteps
    requires multiset(before)[n] + initial.maxSteps - |before| <= initial.maxNodeExecutions == ctx.maxNodeExecutions
    ensures ctx.Count(n) < ctx.maxNodeExecutions
  {
    var rest := ctx.visited[|before|..];
    assert ctx.visited == before + rest;
    assert multiset(rest)[n] <= |multiset(rest)| == |rest|;
  }

  /** From the cut on, the limit of a node visited before it is not reached. */
  lemma {:induction false} LimitStaysApart(def: Definition, body: Body, cut: string, p: Position, before: seq<string>,
                                           initial: Context)
    requires p.current in def.Nodes() && p.ctx.Bounded(0) && before <= p.ctx.visited
    requires p.ctx.maxSteps == initial.maxSteps && p.ctx.maxNodeExecutions == initial.maxNodeExecutions
    requires Reaches(ArcsOfDefinition(def), cut, p.current)
    requires Spared(ArcsOfDefinition(def), cut, before, initial)
    ensures !LimitSpansCrash(RunFrom(def, body, p), before)
    decreases p.ctx.maxSteps - p.ctx.stepNumber
  {
    hide Round, Context.Bounded, Reaches, ArcsOfDefinition;
    if Round(def, body, p).Goes? {
      RoundTakesEdge(def, body, p);
      RoundBounded(def, body, p);
      ReachesThenArc(ArcsOfDefinition(def), cut, p.current, Round(def, body, p).p.current);
      LimitStaysApart(def, body, cut, Round(def, body, p).p, before, initial);
    } else {
      CapEndsHere(def, body, p);
      if p.ctx.CanExecuteNode(p.current) == Some(NodeLimit) && p.current in before {
        SparedCount(p.ctx, p.current, before, initial);
      }
    }
  }

  lemma CapEndsHere(def: Definition, body: Body, p: Position)
    requires p.current in def.Nodes() && Round(def, body, p).Stops?
    ensures var ending := Round(def, body, p).r.ending;
            ending.NodeLimitExceeded? ==> ending.nodeId == p.current
                                          && p.ctx.CanExecuteNode(p.current) == Some(NodeLimit)
  {
    hide FindNextNode, NodeMap;
  }

  /** Where the cap and the graph spare the visited nodes, resuming gives the result of the run that never crashed. */
  lemma SparedResumeIsSame(def: Definition, body: Body, initial: Context, start: string, k: nat, leftover: set<Step>,
                           rows: seq<Step>)
    requires FindStartNode(def.nodeList) == Found(start) && start in def.Nodes()
    requires initial.Bounded(0) && initial.visited == [] && initial.counts == map[]
    requires After(def, body, Origin(initial, start), k).Some?
    requires var p := After(def, body, Origin(initial, start), k).value;
             && CrashRows(p, leftover, rows) && "audio" !in p.previous
             && Spared(ArcsOfDefinition(def), p.current, p.ctx.visited, initial)
    requires leftover == {} || Blind(body)
    ensures var before := After(def, body, Origin(initial, start), k).value.ctx.visited;
            SameResult(FreshRun(def, body, initial, {}), RunAgain(def, body, initial, rows), before, leftover, k)
  {
    hide Round, RunFrom, NodeMap, FindStartNode, After, RunAgain, SameResult, Spared, CrashRows, Context.Bounded,
         LimitSpansCrash;
    var origin := Origin(initial, start);
    ResumeSimulates(def, body, initial, start, k, leftover, rows);
    var p := After(def, body, origin, k).value;
    RunFromAfter(def, body, origin, k);
    AfterBounded(def, body, origin, k);
    AfterCaps(def, body, origin, k);
    ReachesSelf(ArcsOfDefinition(def), p.current);
    LimitStaysApart(def, body, p.current, p, p.ctx.visited, initial);
  }

  /** The nodes visited lie on the way from the first position to the one reached. */
  lemma {:induction false} VisitedLeadHere(def: Definition, body: Body, p: Position, k: nat, n: string)
    requires p.current in def.Nodes() && After(def, body, p, k).Some?
    requires n in After(def, body, p, k).value.ctx.visited && n !in p.ctx.visited
    ensures var arcs, q := ArcsOfDefinition(def), After(def, body, p, k).value;
            Reaches(arcs, p.current, n) && exists w :: (n, w) in arcs && Reaches(arcs, w, q.current)
    decreases k
  {
    hide Round, Reaches, ArcsOfDefinition;
    var arcs := ArcsOfDefinition(def);
    RoundTakesEdge(def, body, p);
    var next := Round(def, body, p).p;
    if n == p.current {
      ReachesSelf(arcs, n);
      AfterReaches(def, body, next, k - 1);
    } else {
      VisitedLeadHere(def, body, next, k - 1, n);
      ArcThenReaches(arcs, p.current, next.current, n);
    }
  }

  lemma {:induction false} AfterReaches(def: Definition, body: Body, p: Position, k: nat)
    requires p.current in def.Nodes() && After(def, body, p, k).Some?
    ensures Reaches(ArcsOfDefinition(def), p.current, After(def, body, p, k).value.current)
    decreases k
  {
    hide Round, Reaches, ArcsOfDefinition;
    if k == 0 {
      ReachesSelf(ArcsOfDefinition(def), p.current);
    } else {
      RoundTakesEdge(def, body, p);
      var next := Round(def, body, p).p;
      AfterReaches(def, body, next, k - 1);
      ArcThenReaches(ArcsOfDefinition(def), p.current, next.current, After(def, body, p, k).value.current);
    }
  }

  /** Without a cycle the nodes visited are never met again. */
  lemma NoCycleSpares(def: Definition, body: Body, initial: Context, start: string, k: nat)
    requires start in def.Nodes() && initial.visited == [] && After(def, body, Origin(initial, start), k).Some?
    requires forall n :: Reaches(ArcsOfDefinition(def), start, n) ==> !OnCycle(ArcsOfDefinition(def), n)
    ensures var p := After(def, body, Origin(initial, start), k).value;
            Spared(ArcsOfDefinition(def), p.current, p.ctx.visited, initial)
  {
    hide Round, Reaches, ArcsOfDefinition, After;
    var arcs := ArcsOfDefinition(def);
    var p := After(def, body, Origin(initial, start), k).value;
    forall n | n in p.ctx.visited ensures !Reaches(arcs, p.current, n) {
      VisitedLeadHere(def, body, Origin(initial, start), k, n);
      if Reaches(arcs, p.current, n) {
        var w :| (n, w) in arcs && Reaches(arcs, w, p.current);
        ReachesTrans(arcs, w, p.current, n);
        assert false;
      }
    }
  }

  /** In a workflow that runs sequentially, only cycles through START can be reached from it. */
  lemma SequentialCyclesMeetStart(def: Definition, start: string, n: string)
    requires RunsSequentially(def)
    requires Reaches(ArcsOfDefinition(def), start, n) && OnCycle(ArcsOfDefinition(def), n)
    ensures OnCycle(ArcsOfDefinition(def), start)
  {
    hide IsJoin, NodeMap, ValidEdges;
    var arcs := ArcsOfDefinition(def);
    var w :| (n, w) in arcs && Reaches(arcs, w, n);
    var q :| WalkFromTo(arcs, w, n, q);
    var cycle := [n] + q;
    JoinInLoop.CyclesPassThroughStart(arcs, start, cycle);
    var i :| 0 <= i < |cycle| && cycle[i] == start;
    var j := JoinInLoop.CyclePredecessor(arcs, cycle, i);
  }

  /**
   Where the executor runs the workflow sequentially and no edge path leads from START back to it,
   a resumed run always gives the result of the uninterrupted one.
   */
  lemma StraightWorkflowsResume(def: Definition, body: Body, initial: Context, start: string, k: nat,
                                leftover: set<Step>, rows: seq<Step>)
    requires FindStartNode(def.nodeList) == Found(start) && start in def.Nodes()
    requires RunsSequentially(def) && !OnCycle(ArcsOfDefinition(def), start)
    requires initial.Bounded(0) && initial.visited == [] && initial.counts == map[]
    requires After(def, body, Origin(initial, start), k).Some?
    requires var p := After(def, body, Origin(initial, start), k).value;
             CrashRows(p, leftover, rows) && "audio" !in p.previous
    requires leftover == {} || Blind(body)
    ensures var before := After(def, body, Origin(initial, start), k).value.ctx.visited;
            SameResult(FreshRun(def, body, initial, {}), RunAgain(def, body, initial, rows), before, leftover, k)
  {
    hide NodeMap, FindStartNode, After, RunAgain, SameResult, CrashRows, Context.Bounded, Spared, OnCycle, Reaches,
         RunsSequentially, ArcsOfDefinition, FreshRun;
    forall n | Reaches(ArcsOfDefinition(def), start, n) ensures !OnCycle(ArcsOfDefinition(def), n) {
      if OnCycle(ArcsOfDefinition(def), n) {
        SequentialCyclesMeetStart(def, start, n);
      }
    }
    NoCycleSpares(def, body, initial, start, k);
    SparedResumeIsSame(def, body, initial, start, k, leftover, rows);
  }

  /** START leads to an agent and the agent leads back to START. */
  const LOOP := Definition([NodeConfig("s", Start), NodeConfig("a", Agent)],
                           [Edge("e", "s", "a", None), Edge("f", "a", "s", None)])

  const IDLE: Body := (n, input, state, steps) => Done(map[], map[], None)

  function Partner(n: string): string {
    if n == "s" then "a" else "s"
  }

  lemma LoopNodes()
    ensures LOOP.Nodes() == map["s" := Start, "a" := Agent]
  {
    assert LOOP.nodeList[1..] == [NodeConfig("a", Agent)];
    assert NodeMap(LOOP.nodeList[1..]) == map["a" := Agent];
  }

  lemma LoopStart()
    ensures FindStartNode(LOOP.nodeList) == Found("s")
  {
    hide FindStartNode;
    FindStartNodeIffUnique(LOOP.nodeList, "s");
    assert OnlyStart(LOOP.nodeList, 0);
  }

  lemma LoopNext(n: string)
    requires n in LOOP.Nodes()
    ensures Partner(n) in LOOP.Nodes() && FindNextNode(LOOP.edges, LOOP.Nodes().Keys, n, None) == Some(Partner(n))
  {
    hide FindNextNode, NodeMap;
    LoopNodes();
    FirstIsNext(LOOP.edges, LOOP.Nodes().Keys, n, None, if n == "s" then 0 else 1);
  }

  lemma LoopRunsSequentially()
    ensures RunsSequentially(LOOP)
  {
    hide NodeMap, ValidEdges;
    var valid := ValidEdges(LOOP.Nodes(), LOOP.edges);
    forall u, v | (u, v) in ArcsOf(valid) ensures (u, v) == ("s", "a") || (u, v) == ("a", "s") {
      var e: nat :| e < |valid| && (valid[e].source, valid[e].target) == (u, v);
      assert valid[e] in LOOP.edges;
    }
  }

  /** Both nodes equally often visited: the one whose turn it is meets its limit first. */
  lemma {:induction false} FirstMeetsLimit(p: Position)
    requires p.current in LOOP.Nodes() && p.ctx.Count("s") == p.ctx.Count("a") <= p.ctx.maxNodeExecutions
    requires p.ctx.stepNumber + 2 * (p.ctx.maxNodeExecutions - p.ctx.Count("s")) < p.ctx.maxSteps
    ensures RunFrom(LOOP, IDLE, p).ending == NodeLimitExceeded(p.current)
    decreases p.ctx.maxNodeExecutions - p.ctx.Count("s")
  {
    hide FindNextNode, NodeMap, Round;
    LoopNodes();
    if p.ctx.Count("s") == p.ctx.maxNodeExecutions {
      LoopStops(p);
    } else {
      LoopRound(p);
      var q := Round(LOOP, IDLE, p).p;
      LoopRound(q);
      FirstMeetsLimit(Round(LOOP, IDLE, q).p);
    }
  }

  lemma LoopStops(p: Position)
    requires p.current in LOOP.Nodes() && p.ctx.CanExecuteNode(p.current) == Some(NodeLimit)
    ensures Round(LOOP, IDLE, p).Stops? && Round(LOOP, IDLE, p).r.ending == NodeLimitExceeded(p.current)
  {
    hide FindNextNode, NodeMap;
  }

  lemma LoopRound(p: Position)
    requires p.current in LOOP.Nodes() && p.ctx.CanExecuteNode(p.current).None?
    ensures var r := Round(LOOP, IDLE, p);
            && r.Goes? && r.p.current == Partner(p.current) && r.p.previous == map[]
            && r.p.ctx == p.ctx.(state := p.ctx.state + map[]).WithNodeVisited(p.current)
  {
    hide FindNextNode, NodeMap, LogStep, RecordFailed;
    LoopNodes();
    LoopNext(p.current);
    assert BranchOf(LOOP.Nodes()[p.current], map[]).None?;
  }

  /**
   The failing case under the default caps: the uninterrupted run is stopped at START's limit, and
   the one resumed after START's first step is stopped at the agent's.
   */
  lemma ResumeResetsCounters(inputData: Payload) returns (rows: seq<Step>)
    ensures RunsSequentially(LOOP) && FindStartNode(LOOP.nodeList) == Found("s")
    ensures var initial := FreshContext(map[], inputData);
            && "s" in LOOP.Nodes() && After(LOOP, IDLE, Origin(initial, "s"), 1).Some?
            && CrashRows(After(LOOP, IDLE, Origin(initial, "s"), 1).value, {}, rows)
            && LimitSpansCrash(FreshRun(LOOP, IDLE, initial, {}), ["s"])
            && FreshRun(LOOP, IDLE, initial, {}).ending == NodeLimitExceeded("s")
            && RunAgain(LOOP, IDLE, initial, rows).ending == NodeLimitExceeded("a")
  {
    hide FindNextNode, NodeMap, Round, RunFrom, FindStartNode, Recorded, MaxCompleted, RunsSequentially;
    LoopNodes();
    LoopStart();
    LoopRunsSequentially();
    var initial := FreshContext(map[], inputData);
    var origin := Origin(initial, "s");
    FirstMeetsLimit(origin);
    LoopRound(origin);
    var p := Round(LOOP, IDLE, origin).p;
    assert After(LOOP, IDLE, origin, 1) == Some(p) by {
      assert After(LOOP, IDLE, p, 0) == Some(p);
    }
    var last := RoundRecords(LOOP, IDLE, origin);
    rows := [last];
    FirstRow(origin, last);
    ResumePointIsPosition(LOOP, p, last, {}, rows);
    var rp := FindResumePoint(rows).value;
    FirstMeetsLimit(Position(SeededContext(rp, initial), "a", map[], set s | s in rows));
  }

  lemma FirstRow(p: Position, last: Step)
    requires p.current in LOOP.Nodes() && p.steps == {} && Round(LOOP, IDLE, p).Goes?
    requires Recorded(LOOP, Round(LOOP, IDLE, p).p, last)
    ensures (set s | s in [last]) == Round(LOOP, IDLE, p).p.steps
  {
    hide FindNextNode, NodeMap;
  }

  /** START hands its output to an END, which returns it. */
  const HANDOVER := Definition([NodeConfig("s", Start), NodeConfig("e", End)], [Edge("x", "s", "e", None)])

  function Saying(said: Payload): Body {
    (n, input, state, steps) => Done(if n == "s" then said else input, map[], None)
  }

  lemma HandoverShape()
    ensures HANDOVER.Nodes() == map["s" := Start, "e" := End] && FindStartNode(HANDOVER.nodeList) == Found("s")
    ensures FindNextNode(HANDOVER.edges, HANDOVER.Nodes().Keys, "s", None) == Some("e")
  {
    hide FindStartNode, FindNextNode;
    assert HANDOVER.nodeList[1..] == [NodeConfig("e", End)];
    assert NodeMap(HANDOVER.nodeList[1..]) == map["e" := End];
    assert HANDOVER.Nodes() == map["s" := Start, "e" := End];
    FindStartNodeIffUnique(HANDOVER.nodeList, "s");
    assert OnlyStart(HANDOVER.nodeList, 0);
    FirstIsNext(HANDOVER.edges, HANDOVER.Nodes().Keys, "s", None, 0);
  }

  lemma StartHandsOver(said: Payload, p: Position)
    requires p.current == "s" && "s" in HANDOVER.Nodes() && p.ctx.CanExecuteNode("s").None?
    ensures var r := Round(HANDOVER, Saying(said), p);
            r.Goes? && r.p.current == "e" && r.p.previous == said
            && r.p.ctx == p.ctx.(state := p.ctx.state + map[]).WithNodeVisited("s")
  {
    hide FindStartNode, FindNextNode, NodeMap, LogStep, RecordFailed;
    HandoverShape();
    assert BranchOf(Start, said).None?;
  }

  lemma EndReturns(said: Payload, p: Position)
    requires p.current == "e" && "e" in HANDOVER.Nodes() && p.ctx.CanExecuteNode("e").None?
    ensures var row := Step(p.ctx.stepNumber, "e", End, p.previous, Persisted(p.previous), p.ctx.state + map[],
                            Completed);
            var r := RunFrom(HANDOVER, Saying(said), p);
            r.ending == Finished(p.previous) && r.steps == LogStep(p.steps, row)
  {
    hide FindStartNode, FindNextNode, NodeMap, LogStep, RecordFailed;
    HandoverShape();
  }

  /** The run of HANDOVER up to its END, and the row of START in front of whatever else the crash left. */
  lemma HandoverRuns(said: Payload, initial: Context, leftover: seq<Step>) returns (rows: seq<Step>, p: Position)
    requires initial == FreshContext(map[], initial.inputData) && |leftover| <= 1
    requires forall s :: s in leftover ==> s.status != Completed && s.stepNumber >= 1
    ensures "s" in HANDOVER.Nodes() && FindStartNode(HANDOVER.nodeList) == Found("s")
    ensures After(HANDOVER, Saying(said), Origin(initial, "s"), 1) == Some(p) && p.previous == said
    ensures p.current == "e" && "e" in HANDOVER.Nodes()
    ensures CrashRows(p, (set s | s in leftover), rows)
            && (forall s :: s in p.steps ==> s.nodeId == "s" && s.stepNumber < 1)
    ensures FreshRun(HANDOVER, Saying(said), initial, {}) == RunFrom(HANDOVER, Saying(said), p)
    ensures p.ctx.CanExecuteNode("e").None? && p.ctx.stepNumber == 1
    ensures var q := Position(p.ctx.(visited := [], counts := map[]), "e", Persisted(said), set s | s in rows);
            q.ctx.CanExecuteNode("e").None?
            && RunAgain(HANDOVER, Saying(said), initial, rows) == RunFrom(HANDOVER, Saying(said), q)
  {
    hide FindNextNode, NodeMap, Round, RunFrom, FindStartNode, Recorded, MaxCompleted;
    HandoverShape();
    var origin := Origin(initial, "s");
    StartHandsOver(said, origin);
    p := Round(HANDOVER, Saying(said), origin).p;
    assert After(HANDOVER, Saying(said), origin, 1) == Some(p) by {
      assert After(HANDOVER, Saying(said), p, 0) == Some(p);
    }
    RunFromAfter(HANDOVER, Saying(said), origin, 1);
    var last := RoundRecords(HANDOVER, Saying(said), origin);
    rows := [last] + leftover;
    HandoverRow(said, origin, last);
    assert (set s | s in rows) == p.steps + set s | s in leftover;
    ResumePointIsPosition(HANDOVER, p, last, (set s | s in leftover), rows);
  }

  lemma HandoverRow(said: Payload, p: Position, last: Step)
    requires p.current == "s" && "s" in HANDOVER.Nodes() && p.steps == {} && Round(HANDOVER, Saying(said), p).Goes?
    requires Recorded(HANDOVER, Round(HANDOVER, Saying(said), p).p, last)
    ensures Round(HANDOVER, Saying(said), p).p.steps == {last} && last.nodeId == "s"
  {
    hide FindNextNode, NodeMap, FindStartNode;
  }

  /** The failing case for audio: the uninterrupted run returns it, the resumed one does not. */
  lemma AudioIsLost(inputData: Payload) returns (rows: seq<Step>, p: Position)
    ensures var initial, said := FreshContext(map[], inputData), map["audio" := Text("hello")];
            && "s" in HANDOVER.Nodes() && After(HANDOVER, Saying(said), Origin(initial, "s"), 1) == Some(p)
            && CrashRows(p, {}, rows) && "audio" in p.previous
            && FreshRun(HANDOVER, Saying(said), initial, {}).ending == Finished(said)
            && RunAgain(HANDOVER, Saying(said), initial, rows).ending == Finished(map[])
  {
    hide NodeMap, Round, RunFrom, FreshRun, RunAgain, After, CrashRows;
    var initial, said := FreshContext(map[], inputData), map["audio" := Text("hello")];
    rows, p := HandoverRuns(said, initial, []);
    assert (set s: Step | s in []) == {};
    EndReturns(said, p);
    EndReturns(said, Position(p.ctx.(visited := [], counts := map[]), "e", Persisted(said), set s | s in rows));
    assert Persisted(said) == map[];
  }

  /** The failing case for leftovers: a FAILED row under the number of the resumed step keeps its COMPLETED row out. */
  lemma LeftoverKeepsRowOut(inputData: Payload) returns (rows: seq<Step>, p: Position)
    ensures var initial, failed := FreshContext(map[], inputData), Step(1, "e", End, map[], map[], map[], Failed);
            && "s" in HANDOVER.Nodes() && After(HANDOVER, Saying(map[]), Origin(initial, "s"), 1) == Some(p)
            && CrashRows(p, {failed}, rows)
            && (exists s :: s in FreshRun(HANDOVER, Saying(map[]), initial, {}).steps
                            && s.nodeId == "e" && s.status == Completed)
            && RunAgain(HANDOVER, Saying(map[]), initial, rows).ending == Finished(map[])
            && (forall s :: s in RunAgain(HANDOVER, Saying(map[]), initial, rows).steps && s.nodeId == "e"
                            ==> s == failed)
  {
    hide NodeMap, Round, RunFrom, FreshRun, RunAgain, After;
    var initial, failed := FreshContext(map[], inputData), Step(1, "e", End, map[], map[], map[], Failed);
    rows, p := HandoverRuns(map[], initial, [failed]);
    assert (set s | s in [failed]) == {failed};
    EndReturns(map[], p);
    var q := Position(p.ctx.(visited := [], counts := map[]), "e", Persisted(map[]), set s | s in rows);
    EndReturns(map[], q);
    assert Persisted(map[]) == map[];
    assert failed in q.steps && HasStep(q.steps, 1);
    var row := Step(1, "e", End, map[], map[], p.ctx.state + map[], Completed);
    assert !HasStep(p.steps, 1);
    assert row in LogStep(p.steps, row);
  }
}
