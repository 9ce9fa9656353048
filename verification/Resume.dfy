/**
 Crash-resume: the position derived from the persisted steps, and the run resumed there as a
 simulation of the run that never crashed.
 */
module Resume {
  import opened Workflow
  import opened Navigator
  import opened Execution
  import opened SequentialEngine

  datatype ResumePoint = ResumePoint(lastNodeId: string, nextStepNumber: nat, state: Payload,
                                     conditionIndex: Option<int>, lastOutput: Option<Payload>)

  ghost predicate LastCompleted(steps: seq<Step>, s: Step) {
    && s in steps && s.status == Completed
    && forall r :: r in steps && r.status == Completed ==> r.stepNumber <= s.stepNumber
  }

  /** The completed step with the highest number; the list may have any order. */
  function MaxCompleted(steps: seq<Step>): (r: Option<Step>)
    ensures r.None? <==> forall s :: s in steps ==> s.status != Completed
    ensures r.Some? ==> LastCompleted(steps, r.value)
  {
    if steps == [] then None
    else
      var init, last := steps[..|steps| - 1], steps[|steps| - 1];
      assert steps == init + [last];
      var best := MaxCompleted(init);
      if last.status == Completed && (best.None? || last.stepNumber > best.value.stepNumber) then Some(last) else best
  }

  function FindResumePoint(steps: seq<Step>): Option<ResumePoint> {
    var last := MaxCompleted(steps);
    if last.None? then None
    else
      var s := last.value;
      Some(ResumePoint(s.nodeId, s.stepNumber + 1, s.stateAfter, BranchOf(s.nodeKind, s.output),
                       if s.output == map[] then None else Some(s.output)))
  }

  /** The context a resumed run starts with: checkpointed state and step number, counters from zero. */
  function SeededContext(rp: ResumePoint, initial: Context): Context {
    initial.(state := rp.state, stepNumber := rp.nextStepNumber, visited := [], counts := map[])
  }

  /** What a resumed execution does, given the rows the crashed one left. */
  function RunAgain(def: Definition, body: Body, initial: Context, rows: seq<Step>): RunResult {
    var rp := FindResumePoint(rows);
    var table := set s | s in rows;
    if rp.None? then FreshRun(def, body, initial, table)
    else
      ResumedRun(def, body, SeededContext(rp.value, initial), table, rp.value.lastNodeId, rp.value.conditionIndex,
                 rp.value.lastOutput)
  }

  /** What holds at every position of a run that began with an empty table. */
  ghost predicate Recorded(def: Definition, p: Position, last: Step) {
    && last in p.steps && last.nodeId in def.Nodes()
    && last.stepNumber + 1 == p.ctx.stepNumber
    && last == Step(last.stepNumber, last.nodeId, def.Nodes()[last.nodeId], last.input, Persisted(p.previous),
                    p.ctx.state, Completed)
    && FindNextNode(def.edges, def.Nodes().Keys, last.nodeId, BranchOf(last.nodeKind, p.previous)) == Some(p.current)
    && (forall s :: s in p.steps ==> s.stepNumber <= last.stepNumber && (s.stepNumber == last.stepNumber ==> s == last))
  }

  ghost predicate NumbersBelow(p: Position) {
    forall s :: s in p.steps ==> s.stepNumber < p.ctx.stepNumber
  }

  /** A round that goes on leaves the row of its step. */
  lemma RoundRecords(def: Definition, body: Body, p: Position) returns (last: Step)
    requires p.current in def.Nodes() && NumbersBelow(p) && Round(def, body, p).Goes?
    ensures var q := Round(def, body, p).p;
            Recorded(def, q, last) && NumbersBelow(q) && q.ctx.visited == p.ctx.visited + [p.current]
  {
    hide FindNextNode;
    var q := Round(def, body, p).p;
    var kind := def.Nodes()[p.current];
    last := Step(p.ctx.stepNumber, p.current, kind, InputOf(p, kind), Persisted(q.previous), q.ctx.state, Completed);
    assert !HasStep(p.steps, p.ctx.stepNumber);
    assert q.steps == p.steps + {last};
  }

  /** After one round or more the table ends with the row of the last step. */
  lemma {:induction false} AfterRecords(def: Definition, body: Body, p: Position, k: nat) returns (last: Step)
    requires p.current in def.Nodes() && NumbersBelow(p) && k > 0 && After(def, body, p, k).Some?
    ensures var q := After(def, body, p, k).value;
            Recorded(def, q, last) && NumbersBelow(q) && q.ctx.stepNumber == p.ctx.stepNumber + k
                && |q.ctx.visited| == |p.ctx.visited| + k
    decreases k
  {
    hide Round, Recorded;
    last := RoundRecords(def, body, p);
    if k > 1 {
      last := AfterRecords(def, body, Round(def, body, p).p, k - 1);
    }
  }

  /** Rows of a crashed run: those of its completed steps, and leftovers of steps it did not complete. */
  ghost predicate CrashRows(p: Position, leftover: set<Step>, rows: seq<Step>) {
    && (set s | s in rows) == p.steps + leftover
    && forall s :: s in leftover ==> s.status != Completed && s.stepNumber >= p.ctx.stepNumber
  }

  /**
   The resume point is the position after the last completed step. The one thing that can be lost
   is audio: the node resumed reads its predecessor's output as persisted.
   */
  lemma ResumePointIsPosition(def: Definition, p: Position, last: Step, leftover: set<Step>, rows: seq<Step>)
    requires Recorded(def, p, last) && CrashRows(p, leftover, rows)
    ensures FindResumePoint(rows).Some?
    ensures var rp := FindResumePoint(rows).value;
            && rp.nextStepNumber == p.ctx.stepNumber && rp.state == p.ctx.state
            && FindNextNode(def.edges, def.Nodes().Keys, rp.lastNodeId, rp.conditionIndex) == Some(p.current)
            && (if rp.lastOutput.Some? then rp.lastOutput.value else map[]) == Persisted(p.previous)
            && (Persisted(p.previous) == p.previous <==> "audio" !in p.previous)
  {
    hide FindNextNode;
    assert last in set s | s in rows;
    var best := MaxCompleted(rows);
    assert last in rows;
    assert best.Some? && LastCompleted(rows, best.value);
    assert best.value in set s | s in rows;
    assert best.value in p.steps;
    assert best.value == last;
    assert "audio" !in p.previous ==> Persisted(p.previous) == p.previous;
    assert "audio" !in Persisted(p.previous);
  }

  /** Bodies that do not look at the persisted steps. */
  ghost predicate Blind(body: Body) {
    forall n, input, state, a, b :: body(n, input, state, a) == body(n, input, state, b)
  }

  /** The rows of the resumed run against those of the uninterrupted one: a leftover keeps a new row out. */
  ghost function Overlay(steps: set<Step>, leftover: set<Step>, base: nat): set<Step> {
    leftover + set s | s in steps && (s.stepNumber < base || !HasStep(leftover, s.stepNumber))
  }

  /** Contexts and tables of the two runs: the resumed one has not counted the nodes visited before the crash. */
  ghost predicate Alike(full: Context, fullSteps: set<Step>, resumed: Context, steps: set<Step>,
                        before: seq<string>, leftover: set<Step>, base: nat)
  {
    && resumed == full.(visited := resumed.visited, counts := resumed.counts)
    && full.visited == before + resumed.visited
    && full.CountsVisits() && resumed.CountsVisits()
    && steps == Overlay(fullSteps, leftover, base)
    && (forall s :: s in fullSteps ==> s.stepNumber < full.stepNumber) && base <= full.stepNumber
  }

  /** The resumed run q follows the uninterrupted run p. */
  ghost predicate Follows(p: Position, q: Position, before: seq<string>, leftover: set<Step>, base: nat) {
    p.current == q.current && p.previous == q.previous && Alike(p.ctx, p.steps, q.ctx, q.steps, before, leftover, base)
  }

  lemma OverlayGrows(steps: set<Step>, leftover: set<Step>, base: nat, step: Step)
    requires base <= step.stepNumber && forall s :: s in steps ==> s.stepNumber < step.stepNumber
    ensures LogStep(Overlay(steps, leftover, base), step) == Overlay(LogStep(steps, step), leftover, base)
  {
    assert !HasStep(steps, step.stepNumber);
    if HasStep(leftover, step.stepNumber) {
      var s :| s in leftover && s.stepNumber == step.stepNumber;
      assert s in Overlay(steps, leftover, base);
      assert HasStep(Overlay(steps, leftover, base), step.stepNumber);
    } else {
      assert !HasStep(Overlay(steps, leftover, base), step.stepNumber);
    }
  }

  lemma NoLeftoverSameRows(steps: set<Step>, base: nat)
    ensures Overlay(steps, {}, base) == steps
  {
  }

  /** Two results that differ only in what the resumed run cannot know: the nodes visited before the crash. */
  ghost predicate SameResult(full: RunResult, resumed: RunResult, before: seq<string>, leftover: set<Step>, base: nat) {
    && resumed.ending == full.ending
    && resumed.ctx.state == full.ctx.state && resumed.ctx.stepNumber == full.ctx.stepNumber
    && full.ctx.visited == before + resumed.ctx.visited
    && resumed.steps == Overlay(full.steps, leftover, base)
  }

  /** One round on both sides, when neither is capped. */
  lemma RoundsFollow(def: Definition, body: Body, p: Position, q: Position, before: seq<string>, leftover: set<Step>,
                     base: nat)
    requires p.current in def.Nodes() && Follows(p, q, before, leftover, base) && (leftover == {} || Blind(body))
    requires p.ctx.CanExecuteNode(p.current).None? && q.ctx.CanExecuteNode(p.current).None?
    ensures match Round(def, body, p)
            case Goes(p') => Round(def, body, q).Goes? && Follows(p', Round(def, body, q).p, before, leftover, base)
            case Stops(r) => Round(def, body, q).Stops? && SameResult(r, Round(def, body, q).r, before, leftover, base)
  {
    hide FindNextNode, Overlay, LogStep, NodeMap, Alike, Context.WithNodeVisited, Context.WithState, BranchOf;
    var n, number := p.current, p.ctx.stepNumber;
    var kind := def.Nodes()[n];
    var input := InputOf(p, kind);
    AlikeBasics(p.ctx, p.steps, q.ctx, q.steps, before, leftover, base);
    var outcome := body(n, input, p.ctx.state, p.steps);
    assert body(n, input, q.ctx.state, q.steps) == outcome;
    if outcome.Failure? {
      FailedFollows(p, q, before, leftover, base, Step(number, n, kind, input, map[], map[], Failed));
    } else {
      DoneFollows(p, q, before, leftover, base, outcome.updates,
                  Step(number, n, kind, input, Persisted(outcome.data), p.ctx.WithState(outcome.updates).state,
                       Completed));
    }
  }

  lemma AlikeBasics(full: Context, fullSteps: set<Step>, resumed: Context, steps: set<Step>, before: seq<string>,
                    leftover: set<Step>, base: nat)
    requires Alike(full, fullSteps, resumed, steps, before, leftover, base)
    ensures resumed.state == full.state && resumed.stepNumber == full.stepNumber && resumed.inputData == full.inputData
    ensures full.visited == before + resumed.visited
    ensures leftover == {} ==> steps == fullSteps
    ensures forall updates :: resumed.WithState(updates).state == full.WithState(updates).state
  {
    NoLeftoverSameRows(fullSteps, base);
  }

  lemma FailedFollows(p: Position, q: Position, before: seq<string>, leftover: set<Step>, base: nat, step: Step)
    requires Alike(p.ctx, p.steps, q.ctx, q.steps, before, leftover, base) && step.stepNumber == p.ctx.stepNumber
    ensures LogStep(q.steps, step) == Overlay(LogStep(p.steps, step), leftover, base)
  {
    OverlayGrows(p.steps, leftover, base, step);
  }

  lemma DoneFollows(p: Position, q: Position, before: seq<string>, leftover: set<Step>, base: nat, updates: Payload,
                    step: Step)
    requires Alike(p.ctx, p.steps, q.ctx, q.steps, before, leftover, base) && step.stepNumber == p.ctx.stepNumber
    ensures var a, b := p.ctx.WithState(updates).WithNodeVisited(p.current),
            q.ctx.WithState(updates).WithNodeVisited(p.current);
            && Alike(a, LogStep(p.steps, step), b, LogStep(q.steps, step), before, leftover, base)
            && b.state == a.state && b.stepNumber == a.stepNumber && a.visited == before + b.visited
            && LogStep(q.steps, step) == Overlay(LogStep(p.steps, step), leftover, base)
  {
    hide Overlay, LogStep, Context.CountsVisits;
    OverlayGrows(p.steps, leftover, base, step);
    RowsStayBelow(p, step);
    BothCount(p.ctx, q.ctx, p.current, updates);
  }

  lemma RowsStayBelow(p: Position, step: Step)
    requires (forall s :: s in p.steps ==> s.stepNumber < p.ctx.stepNumber) && step.stepNumber == p.ctx.stepNumber
    ensures forall s :: s in LogStep(p.steps, step) ==> s.stepNumber < p.ctx.stepNumber + 1
  {
  }

  lemma BothCount(a: Context, b: Context, n: string, updates: Payload)
    requires a.CountsVisits() && b.CountsVisits()
    ensures a.WithState(updates).WithNodeVisited(n).CountsVisits()
            && b.WithState(updates).WithNodeVisited(n).CountsVisits()
  {
    StateKeepsCounts(a, updates);
    StateKeepsCounts(b, updates);
    VisitCounts(a.WithState(updates), n);
    VisitCounts(b.WithState(updates), n);
  }

  /** How the caps compare: the resumed run has not counted the visits before the crash. */
  lemma CapsFollow(p: Position, q: Position, before: seq<string>, leftover: set<Step>, base: nat)
    requires Follows(p, q, before, leftover, base) && p.ctx.Count(p.current) <= p.ctx.maxNodeExecutions
    ensures var a, b := p.ctx.CanExecuteNode(p.current), q.ctx.CanExecuteNode(p.current);
            if a == Some(NodeLimit) && p.current in before then b.None? else a == b
  {
    var n := p.current;
    assert multiset(before + q.ctx.visited) == multiset(before) + multiset(q.ctx.visited);
    assert p.ctx.Count(n) == multiset(p.ctx.visited)[n] && q.ctx.Count(n) == multiset(q.ctx.visited)[n];
    assert n in before <==> n in multiset(before);
  }

  lemma {:induction false} VisitedGrows(def: Definition, body: Body, p: Position)
    requires p.current in def.Nodes()
    ensures |RunFrom(def, body, p).ctx.visited| >= |p.ctx.visited|
    decreases p.ctx.maxSteps - p.ctx.stepNumber
  {
    hide FindNextNode, NodeMap;
    if Round(def, body, p).Goes? {
      VisitedGrows(def, body, Round(def, body, p).p);
    }
  }

  /** A run not capped at its first node does not end there with a node limit. */
  lemma UncappedGoesOn(def: Definition, body: Body, q: Position)
    requires q.current in def.Nodes() && q.ctx.CanExecuteNode(q.current).None?
    ensures var r := RunFrom(def, body, q);
            |r.ctx.visited| > |q.ctx.visited| || r.ending == NodeFailed(q.current)
  {
    hide FindNextNode, NodeMap;
    if Round(def, body, q).Goes? {
      VisitedGrows(def, body, Round(def, body, q).p);
    }
  }

  /** The uninterrupted run hits the limit of a node that was already visited before the crash. */
  ghost predicate LimitSpansCrash(full: RunResult, before: seq<string>) {
    full.ending.NodeLimitExceeded? && full.ending.nodeId in before
  }

  /** The resumed run gives the same result exactly when no node limit counts visits from before the crash. */
  lemma {:induction false} RunsFollow(def: Definition, body: Body, p: Position, q: Position, before: seq<string>,
                                      leftover: set<Step>, base: nat)
    requires p.current in def.Nodes() && Follows(p, q, before, leftover, base) && (leftover == {} || Blind(body))
    requires p.ctx.Bounded(0)
    ensures SameResult(RunFrom(def, body, p), RunFrom(def, body, q), before, leftover, base)
            <==> !LimitSpansCrash(RunFrom(def, body, p), before)
    decreases p.ctx.maxSteps - p.ctx.stepNumber
  {
    hide FindNextNode, NodeMap, Context.Bounded, Follows, Round;
    BoundedCount(p.ctx, p.current);
    SamePlace(p, q, before, leftover, base);
    CapsFollow(p, q, before, leftover, base);
    if p.ctx.CanExecuteNode(p.current).Some? {
      CappedFollow(def, body, p, q, before, leftover, base);
    } else {
      RoundsFollow(def, body, p, q, before, leftover, base);
      if Round(def, body, p).Goes? {
        RoundBounded(def, body, p);
        RunsFollow(def, body, Round(def, body, p).p, Round(def, body, q).p, before, leftover, base);
      } else {
        UncappedEnding(def, body, p);
      }
    }
  }

  lemma SamePlace(p: Position, q: Position, before: seq<string>, leftover: set<Step>, base: nat)
    requires Follows(p, q, before, leftover, base)
    ensures q.current == p.current
  {
  }

  lemma BoundedCount(ctx: Context, n: string)
    requires ctx.Bounded(0)
    ensures ctx.Count(n) <= ctx.maxNodeExecutions
  {
  }

  lemma RoundBounded(def: Definition, body: Body, p: Position)
    requires p.current in def.Nodes() && p.ctx.Bounded(0) && Round(def, body, p).Goes?
    ensures Round(def, body, p).p.ctx.Bounded(0)
  {
    hide FindNextNode, NodeMap, Context.Bounded;
    var n, kind := p.current, def.Nodes()[p.current];
    var outcome := body(n, InputOf(p, kind), p.ctx.state, p.steps);
    VisitKeepsBounds(p.ctx, 0, n, p.ctx.state + outcome.updates);
  }

  lemma UncappedEnding(def: Definition, body: Body, p: Position)
    requires p.current in def.Nodes() && p.ctx.CanExecuteNode(p.current).None? && Round(def, body, p).Stops?
    ensures !Round(def, body, p).r.ending.NodeLimitExceeded?
  {
    hide FindNextNode, NodeMap;
  }

  lemma CappedFollow(def: Definition, body: Body, p: Position, q: Position, before: seq<string>, leftover: set<Step>,
                     base: nat)
    requires p.current in def.Nodes() && Follows(p, q, before, leftover, base)
    requires var a, b := p.ctx.CanExecuteNode(p.current), q.ctx.CanExecuteNode(p.current);
             a.Some? && if a == Some(NodeLimit) && p.current in before then b.None? else a == b
    ensures SameResult(RunFrom(def, body, p), RunFrom(def, body, q), before, leftover, base)
            <==> !LimitSpansCrash(RunFrom(def, body, p), before)
  {
    hide FindNextNode, NodeMap;
    if q.ctx.CanExecuteNode(q.current).None? {
      UncappedGoesOn(def, body, q);
      assert |p.ctx.visited| == |before| + |q.ctx.visited|;
    }
  }

  /**
   Resume simulates the uninterrupted run. A run that started from an empty table and was cut off
   after k completed non-terminal steps, none of them included, is resumed from the rows it left, in
   any order, possibly with leftovers of steps it did not complete. Provided the last output carried no audio, the
   resumed run visits the remaining nodes and ends as the uninterrupted one does, in the same state,
   with the same step numbers and rows except those a leftover keeps out, unless the uninterrupted
   run ends by the limit of a node visited before the cut.
   */
  lemma ResumeSimulates(def: Definition, body: Body, initial: Context, start: string, k: nat, leftover: set<Step>,
                        rows: seq<Step>)
    requires FindStartNode(def.nodeList) == Found(start) && start in def.Nodes()
    requires initial.Bounded(0) && initial.visited == [] && initial.counts == map[]
    requires After(def, body, Origin(initial, start), k).Some?
    requires var p := After(def, body, Origin(initial, start), k).value;
             CrashRows(p, leftover, rows) && "audio" !in p.previous
    requires leftover == {} || Blind(body)
    ensures var before := After(def, body, Origin(initial, start), k).value.ctx.visited;
            var full := FreshRun(def, body, initial, {});
            && |before| == k
            && (SameResult(full, RunAgain(def, body, initial, rows), before, leftover, k)
                <==> !LimitSpansCrash(full, before))
  {
    hide Round, RunFrom, FindNextNode, NodeMap, After, MaxCompleted, Recorded, SameResult, Follows, LimitSpansCrash;
    var origin := Origin(initial, start);
    var p, q := After(def, body, origin, k).value, Position(initial, start, map[], set s | s in rows);
    RunFromAfter(def, body, origin, k);
    AfterBounded(def, body, origin, k);
    if k == 0 {
      NoRounds(def, body, origin);
      StartsAfresh(def, body, initial, start, leftover, rows);
    } else {
      var last := AfterRecords(def, body, origin, k);
      ResumePointIsPosition(def, p, last, leftover, rows);
      var rp := FindResumePoint(rows).value;
      q := Position(SeededContext(rp, initial), p.current, p.previous, set s | s in rows);
      AfterCaps(def, body, origin, k);
    }
    SeedFollows(def, p, q, leftover, k);
    RunsFollow(def, body, p, q, p.ctx.visited, leftover, k);
  }

  lemma NoRounds(def: Definition, body: Body, p: Position)
    requires p.current in def.Nodes()
    ensures After(def, body, p, 0) == Some(p)
  {
  }

  /** Without a completed step there is no position to resume, and the run begins again. */
  lemma StartsAfresh(def: Definition, body: Body, initial: Context, start: string, leftover: set<Step>, rows: seq<Step>)
    requires FindStartNode(def.nodeList) == Found(start) && start in def.Nodes()
    requires initial.visited == [] && initial.counts == map[] && initial.Bounded(0)
    requires CrashRows(Origin(initial, start), leftover, rows)
    ensures RunAgain(def, body, initial, rows)
            == RunFrom(def, body, Position(initial, start, map[], set s | s in rows))
    ensures NumbersBelow(Origin(initial, start)) && Origin(initial, start).ctx.stepNumber == 0
  {
    hide RunFrom, Round, NodeMap;
    var table := set s | s in rows;
    forall s | s in rows ensures s.status != Completed {
      assert s in table;
    }
  }

  lemma SeedFollows(def: Definition, p: Position, q: Position, leftover: set<Step>, k: nat)
    requires p.ctx.Bounded(0) && NumbersBelow(p) && p.ctx.stepNumber == k
    requires q.current == p.current && q.previous == p.previous && q.steps == p.steps + leftover
    requires q.ctx == p.ctx.(visited := [], counts := map[])
    ensures Follows(p, q, p.ctx.visited, leftover, k)
  {
    assert forall m :: q.ctx.Count(m) == 0;
    assert p.ctx.visited + [] == p.ctx.visited;
    assert q.steps == Overlay(p.steps, leftover, k);
  }

  lemma {:induction false} AfterBounded(def: Definition, body: Body, p: Position, k: nat)
    requires p.current in def.Nodes() && p.ctx.Bounded(0) && After(def, body, p, k).Some?
    ensures After(def, body, p, k).value.ctx.Bounded(0)
    decreases k
  {
    hide Round, Context.Bounded;
    if k > 0 {
      RoundBounded(def, body, p);
      AfterBounded(def, body, Round(def, body, p).p, k - 1);
    }
  }

  /** The caps and the workflow input never change. */
  lemma {:induction false} AfterCaps(def: Definition, body: Body, p: Position, k: nat)
    requires p.current in def.Nodes() && After(def, body, p, k).Some?
    ensures var q := After(def, body, p, k).value;
            q.ctx.maxSteps == p.ctx.maxSteps && q.ctx.maxNodeExecutions == p.ctx.maxNodeExecutions
                && q.ctx.inputData == p.ctx.inputData
    decreases k
  {
    hide FindNextNode, NodeMap;
    if k > 0 {
      AfterCaps(def, body, Round(def, body, p).p, k - 1);
    }
  }

  /** Every run stops after some number of rounds. */
  lemma {:induction false} RunStopsAt(def: Definition, body: Body, p: Position) returns (k: nat, q: Position)
    requires p.current in def.Nodes()
    ensures After(def, body, p, k) == Some(q) && q.current in def.Nodes()
    ensures Round(def, body, q).Stops? && RunFrom(def, body, p) == Round(def, body, q).r
    decreases p.ctx.maxSteps - p.ctx.stepNumber
  {
    hide FindNextNode, NodeMap;
    k, q := 0, p;
    if Round(def, body, p).Goes? {
      k, q := RunStopsAt(def, body, Round(def, body, p).p);
      k := k + 1;
    }
  }

  /** The row an END leaves is the last of all. */
  lemma EndIsLast(def: Definition, body: Body, q: Position, rows: seq<Step>) returns (last: Step)
    requires q.current in def.Nodes() && NumbersBelow(q) && Round(def, body, q).Stops?
             && Round(def, body, q).r.ending.Finished?
    requires (set s | s in rows) == Round(def, body, q).r.steps
    ensures MaxCompleted(rows) == Some(last) && last.nodeId in def.Nodes()
            && last.nodeKind == def.Nodes()[last.nodeId] == End
  {
    hide FindNextNode, NodeMap;
    var n := q.current;
    var input := InputOf(q, def.Nodes()[n]);
    var outcome := body(n, input, q.ctx.state, q.steps);
    last := Step(q.ctx.stepNumber, n, End, input, Persisted(outcome.data), q.ctx.state + outcome.updates, Completed);
    assert !HasStep(q.steps, q.ctx.stepNumber);
    assert last in set s | s in rows;
    assert last in rows;
    var best := MaxCompleted(rows).value;
    assert best in set s | s in rows;
  }

  /** A run that already reached its END is resumed to an empty output, where END nodes lead nowhere. */
  lemma FinishedRunResumesEmpty(def: Definition, body: Body, initial: Context, start: string, rows: seq<Step>)
    requires FindStartNode(def.nodeList) == Found(start) && start in def.Nodes()
    requires FreshRun(def, body, initial, {}).ending.Finished?
             && (set s | s in rows) == FreshRun(def, body, initial, {}).steps
    requires forall n :: n in def.Nodes() && def.Nodes()[n] == End
                         ==> FindNextNode(def.edges, def.Nodes().Keys, n, None).None?
    ensures RunAgain(def, body, initial, rows).ending == Finished(map[])
  {
    hide FindNextNode, NodeMap, Round, MaxCompleted, RunFrom;
    var origin := Origin(initial, start);
    var k, q := RunStopsAt(def, body, origin);
    if k > 0 {
      var step := AfterRecords(def, body, origin, k);
    }
    var last := EndIsLast(def, body, q, rows);
  }
}
