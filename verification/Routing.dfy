/**
 How a node is left: which edges a router's output opens, spelled out down to the digits of the
 branch index, and that both loops and the resumed run go by it. Also what one round of the
 sequential loop does to context and table.
 */
module Routing {
  import opened Workflow
  import opened Navigator
  import opened Execution
  import opened SequentialEngine
  import opened Resume
  import DagModel
  import P = ParallelEngine

  ghost predicate Digits(t: string) {
    forall i :: 0 <= i < |t| ==> '0' <= t[i] <= '9'
  }

  /** The number the digits are read as. */
  ghost function ReadDigits(t: string): nat
    requires Digits(t)
  {
    if t == [] then 0 else 10 * ReadDigits(t[..|t| - 1]) + (t[|t| - 1] as int - '0' as int)
  }

  /** The digits of n, without a leading zero. */
  ghost predicate DigitsOf(t: string, n: nat) {
    t != [] && Digits(t) && ReadDigits(t) == n && (t[0] == '0' ==> t == "0")
  }

  /** The decimal text of i. */
  ghost predicate Numeral(t: string, i: int) {
    if i >= 0 then DigitsOf(t, i) else t != [] && t[0] == '-' && DigitsOf(t[1..], -i)
  }

  /** A digit is the character of its value. */
  lemma DigitCharacter(n: nat)
    ensures var c := Decimal(n)[|Decimal(n)| - 1];
            '0' <= c <= '9' && c as int - '0' as int == n % 10
  {
  }

  lemma ZeroReads()
    ensures ReadDigits("0") == 0
  {
    assert "0"[..0] == [];
  }

  lemma {:induction false} DecimalReads(n: nat)
    ensures DigitsOf(Decimal(n), n)
  {
    var t := Decimal(n);
    DigitCharacter(n);
    if n < 10 {
      assert t[..0] == [];
    } else {
      DecimalReads(n / 10);
      assert t[..|t| - 1] == Decimal(n / 10);
      ZeroReads();
    }
  }

  lemma {:induction false} LeadingDigitCounts(t: string)
    requires Digits(t)
    ensures t != [] && t[0] != '0' ==> ReadDigits(t) > 0
  {
    if |t| > 1 {
      LeadingDigitCounts(t[..|t| - 1]);
    } else if |t| == 1 {
      assert t[..0] == [];
    }
  }

  /** Taking the last digit off, which leaves a positive number unless it was the only digit. */
  lemma LastDigit(t: string)
    requires t != [] && Digits(t) && (t[0] == '0' ==> t == "0")
    ensures var init, last := t[..|t| - 1], t[|t| - 1] as int - '0' as int;
            && Digits(init) && ReadDigits(t) == 10 * ReadDigits(init) + last && 0 <= last < 10
            && (if init == [] then ReadDigits(init) == 0 else init[0] == t[0] && t[0] != '0' && ReadDigits(init) > 0)
  {
    LeadingDigitCounts(t[..|t| - 1]);
  }

  /** There is one way to write a number without a leading zero. */
  lemma {:induction false} DigitsAreUnique(a: string, b: string)
    requires a != [] && b != [] && Digits(a) && Digits(b) && ReadDigits(a) == ReadDigits(b)
    requires (a[0] == '0' ==> a == "0") && (b[0] == '0' ==> b == "0")
    ensures a == b
    decreases |a|
  {
    hide Digits, ReadDigits;
    LastDigit(a);
    LastDigit(b);
    var a1, b1 := a[..|a| - 1], b[..|b| - 1];
    assert ReadDigits(a1) == ReadDigits(b1) && a[|a| - 1] == b[|b| - 1];
    if a1 != [] {
      DigitsAreUnique(a1, b1);
    }
    assert a == a1 + [a[|a| - 1]] && b == b1 + [b[|b| - 1]];
  }

  /** The text of a branch index is its decimal numeral, and nothing else is. */
  lemma IntTextIsNumeral(t: string, i: int)
    ensures t == IntText(i) <==> Numeral(t, i)
  {
    DecimalReads(if i >= 0 then i else -i);
    if Numeral(t, i) {
      if i >= 0 {
        DigitsAreUnique(t, Decimal(i));
      } else {
        DigitsAreUnique(t[1..], Decimal(-i));
        assert t == ['-'] + t[1..];
      }
    }
    assert i < 0 ==> IntText(i)[1..] == Decimal(-i);
  }

  /** A router's output opens the edges of its branch; any other output opens every edge of the node. */
  ghost predicate Opens(e: Edge, n: string, kind: NodeType, data: Payload) {
    && e.source == n
    && (kind == Condition && "condition_index" in data && data["condition_index"].Int? ==>
          exists t :: Numeral(t, data["condition_index"].i) && e.sourceHandle == Some("source_" + n + "_" + t))
  }

  /** The branch read off an output opens what the output opens. */
  lemma BranchOpens(e: Edge, n: string, kind: NodeType, data: Payload)
    requires e.source == n
    ensures Opens(e, n, kind, data)
            <==> BranchOf(kind, data).None? || e.sourceHandle == Some(Handle(n, BranchOf(kind, data).value))
  {
    if kind == Condition && "condition_index" in data && data["condition_index"].Int? {
      var i := data["condition_index"].i;
      IntTextIsNumeral(IntText(i), i);
      if t :| Numeral(t, i) && e.sourceHandle == Some("source_" + n + "_" + t) {
        IntTextIsNumeral(t, i);
      }
    }
  }

  /** The first edge opened that leads to another existing node. */
  ghost predicate FirstOpen(edges: seq<Edge>, nodes: set<string>, n: string, kind: NodeType, data: Payload, i: nat) {
    && i < |edges| && Passable(edges[i], nodes, n, kind, data)
    && forall j :: 0 <= j < i ==> !Passable(edges[j], nodes, n, kind, data)
  }

  ghost predicate Passable(e: Edge, nodes: set<string>, n: string, kind: NodeType, data: Payload) {
    Opens(e, n, kind, data) && e.target in nodes && e.target != n
  }

  /** Where a node that yielded `data` leads: to the target of the first edge opened, or nowhere. */
  ghost predicate LeadsTo(edges: seq<Edge>, nodes: set<string>, n: string, kind: NodeType, data: Payload,
                          next: Option<string>)
  {
    if next.Some? then exists i: nat :: FirstOpen(edges, nodes, n, kind, data, i) && edges[i].target == next.value
    else forall i :: 0 <= i < |edges| ==> !Passable(edges[i], nodes, n, kind, data)
  }

  lemma NextIsOpened(edges: seq<Edge>, nodes: set<string>, n: string, kind: NodeType, data: Payload)
    ensures LeadsTo(edges, nodes, n, kind, data, FindNextNode(edges, nodes, n, BranchOf(kind, data)))
  {
    hide FindNextNode, Opens, BranchOf, Handle;
    var branch := BranchOf(kind, data);
    forall i | 0 <= i < |edges|
      ensures Navigator.Follows(nodes, edges[i], n, branch) <==> Passable(edges[i], nodes, n, kind, data)
    {
      if edges[i].source == n {
        BranchOpens(edges[i], n, kind, data);
      }
      OpensLeaves(edges[i], n, kind, data);
    }
    var next := FindNextNode(edges, nodes, n, branch);
    if next.Some? {
      var i: nat :| IsFirst(edges, nodes, n, branch, i) && edges[i].target == next.value;
      assert FirstOpen(edges, nodes, n, kind, data, i);
    }
  }

  lemma OpensLeaves(e: Edge, n: string, kind: NodeType, data: Payload)
    ensures Opens(e, n, kind, data) ==> e.source == n
  {
  }

  /** What START reads, and what any other node does. */
  ghost predicate Reads(p: Position, kind: NodeType, input: Payload) {
    input == if kind == Start then p.ctx.inputData else p.previous
  }

  /** The context after a launch of n whose updates were folded in. */
  ghost predicate Visited(before: Context, after: Context, n: string, state: Payload) {
    && after.state == state && after.inputData == before.inputData && after.stepNumber == before.stepNumber + 1
    && after.visited == before.visited + [n] && after.maxSteps == before.maxSteps
    && after.maxNodeExecutions == before.maxNodeExecutions
    && forall m :: after.Count(m) == before.Count(m) + if m == n then 1 else 0
  }

  /** The state after updates: each key updated has its new value, the others keep theirs. */
  ghost predicate Updated(before: Payload, updates: Payload, after: Payload) {
    && (forall k :: k in after <==> k in before || k in updates)
    && forall k :: k in after ==> after[k] == if k in updates then updates[k] else before[k]
  }

  /** A round that is stopped by a cap, the number of steps before the number of executions. */
  lemma RoundCapped(def: Definition, body: Body, p: Position)
    requires p.current in def.Nodes()
    requires p.ctx.stepNumber >= p.ctx.maxSteps || p.ctx.Count(p.current) >= p.ctx.maxNodeExecutions
    ensures Round(def, body, p) == Stops(RunResult(if p.ctx.stepNumber >= p.ctx.maxSteps then MaxStepsExceeded
                                                   else NodeLimitExceeded(p.current), p.ctx, p.steps))
  {
  }

  /** A round whose node fails changes nothing but the table, which is offered a FAILED row. */
  lemma RoundFails(def: Definition, body: Body, p: Position, input: Payload)
    requires p.current in def.Nodes() && p.ctx.stepNumber < p.ctx.maxSteps
             && p.ctx.Count(p.current) < p.ctx.maxNodeExecutions
    requires Reads(p, def.Nodes()[p.current], input) && body(p.current, input, p.ctx.state, p.steps).Failure?
    ensures var r := Round(def, body, p);
            && r.Stops? && r.r.ending == NodeFailed(p.current) && r.r.ctx == p.ctx
            && Offered(p.steps, r.r.steps,
                       Step(p.ctx.stepNumber, p.current, def.Nodes()[p.current], input, map[], map[], Failed))
  {
    hide NodeMap, FindNextNode;
  }

  /**
   A round whose node yields an outcome: the updates are folded into the state, the table is offered a
   COMPLETED row, the visit is counted; an END ends the run on its data, in the state it filtered if it
   did; any other node leads on over the first edge its output opens, with its data as the next input,
   or the run ends for want of one.
   */
  lemma RoundYields(def: Definition, body: Body, p: Position, input: Payload)
    returns (state: Payload, row: Step, ctx: Context, steps: set<Step>, next: Option<string>)
    requires p.current in def.Nodes() && p.ctx.stepNumber < p.ctx.maxSteps
             && p.ctx.Count(p.current) < p.ctx.maxNodeExecutions
    requires Reads(p, def.Nodes()[p.current], input) && body(p.current, input, p.ctx.state, p.steps).Done?
    ensures var kind, out := def.Nodes()[p.current], body(p.current, input, p.ctx.state, p.steps);
            && Updated(p.ctx.state, out.updates, state) && Visited(p.ctx, ctx, p.current, state)
            && row == Step(p.ctx.stepNumber, p.current, kind, input, row.output, state, Completed)
            && WithoutAudio(row.output, out.data) && Offered(p.steps, steps, row)
            && LeadsTo(def.edges, def.Nodes().Keys, p.current, kind, out.data, next)
            && Round(def, body, p) ==
                 if kind == End then
                   Stops(RunResult(Finished(out.data),
                                   if out.filteredState.Some? then ctx.(state := out.filteredState.value) else ctx,
                                   steps))
                 else if next.None? then Stops(RunResult(NoNextNode(p.current), ctx, steps))
                 else Goes(Position(ctx, next.value, out.data, steps))
  {
    hide NodeMap, FindNextNode, LeadsTo;
    var kind, out := def.Nodes()[p.current], body(p.current, input, p.ctx.state, p.steps);
    state := p.ctx.state + out.updates;
    row := Step(p.ctx.stepNumber, p.current, kind, input, Persisted(out.data), state, Completed);
    ctx := p.ctx.WithState(out.updates).WithNodeVisited(p.current);
    steps := LogStep(p.steps, row);
    next := FindNextNode(def.edges, def.Nodes().Keys, p.current, BranchOf(kind, out.data));
    PersistedLacksAudio(out.data);
    NextIsOpened(def.edges, def.Nodes().Keys, p.current, kind, out.data);
  }

  /** The scheduler is told the edges a finished task's output opens. */
  lemma FinishedTaskOpens(nodes: Nodes, outcomes: nat -> Outcome, f: P.FinishedTask, g: DagModel.Graph, e: nat)
    requires P.LoggedTask(nodes, outcomes, f)
    ensures g.Takes(e, f.task.ready.nodeId, f.branch)
            <==> e < |g.edges| && Opens(g.edges[e], f.task.ready.nodeId, nodes[f.task.ready.nodeId], f.data)
  {
    hide Opens, BranchOf, Handle;
    var n, kind := f.task.ready.nodeId, nodes[f.task.ready.nodeId];
    if e < |g.edges| {
      if g.edges[e].source == n {
        BranchOpens(g.edges[e], n, kind, f.data);
      }
      OpensLeaves(g.edges[e], n, kind, f.data);
    }
  }

  /** A resumed run starts where the output of the last completed step leads. */
  lemma ResumedNodeIsOpened(def: Definition, rows: seq<Step>, last: Step)
    requires MaxCompleted(rows) == Some(last)
    ensures FindResumePoint(rows).Some?
    ensures var rp := FindResumePoint(rows).value;
            && rp.lastNodeId == last.nodeId
            && LeadsTo(def.edges, def.Nodes().Keys, last.nodeId, last.nodeKind, last.output,
                       FindNextNode(def.edges, def.Nodes().Keys, rp.lastNodeId, rp.conditionIndex))
  {
    hide FindNextNode, NodeMap, LeadsTo;
    NextIsOpened(def.edges, def.Nodes().Keys, last.nodeId, last.nodeKind, last.output);
  }
}
