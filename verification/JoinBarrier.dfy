/**
 The join barrier, on every graph and every run, loops included. A log records each token put on
 an edge and each reaction; what a node was fired with is read off the log alone.
 */
module JoinBarrier {
  import opened Workflow
  import opened DagModel
  import opened DagRuns

  datatype Event =
    | Completed(node: string, data: Payload)
    | Put(edge: nat, status: Status)
    | Ran(node: string, input: Payload)
    | Pruned(node: string)
    | Reactivated(edge: nat, input: Payload)

  type Log = seq<Event>

  /** What an event does to the tokens on n's in-edges. */
  ghost function TokensAfter(g: Graph, tok: map<nat, Status>, event: Event, n: string): map<nat, Status> {
    if event.Put? then (if g.Gates(event.edge, n) then tok[event.edge := event.status] else tok)
    else if (event.Ran? || event.Pruned?) && event.node == n then map[]
    else tok
  }

  /** The tokens on n's in-edges since n last ran or was pruned, as the log tells. */
  ghost function TokensOf(g: Graph, log: Log, n: string): map<nat, Status> {
    if log == [] then map[]
    else TokensAfter(g, TokensOf(g, log[..|log| - 1], n), log[|log| - 1], n)
  }

  /** What n last produced, as the log tells. */
  ghost function OutputOf(log: Log, n: string): Payload {
    if log == [] then map[]
    else if log[|log| - 1].Completed? && log[|log| - 1].node == n then log[|log| - 1].data
    else OutputOf(log[..|log| - 1], n)
  }

  ghost function MergeOf(g: Graph, log: Log, es: seq<nat>): Payload
    requires InRange(g, es)
  {
    if es == [] then map[]
    else MergeOf(g, log, es[..|es| - 1]) + OutputOf(log, g.edges[es[|es| - 1]].source)
  }

  /** The rule a single event must obey, given what was logged before it. */
  ghost predicate EventOk(g: Graph, log: Log, event: Event) {
    match event
    case Completed(_, _) => true
    case Put(e, _) => e < |g.edges| && e !in g.back
    case Ran(n, input) =>
      var tok := TokensOf(g, log, n);
      && (forall e: nat :: g.Gates(e, n) ==> e in tok)
      && (exists e: nat :: g.Gates(e, n) && tok[e] == Live)
      && input == MergeOf(g, log, LiveSources(g, tok, n))
    case Pruned(n) =>
      var tok := TokensOf(g, log, n);
      && (exists e: nat :: g.Gates(e, n))
      && (forall e: nat :: g.Gates(e, n) ==> e in tok && tok[e] == Dead)
    case Reactivated(e, input) => e in g.back && e < |g.edges| && input == OutputOf(log, g.edges[e].source)
  }

  ghost predicate LogOk(g: Graph, log: Log) {
    forall i :: 0 <= i < |log| ==> EventOk(g, log[..i], log[i])
  }

  ghost function Readies(g: Graph, event: Event): seq<ReadyNode> {
    if event.Ran? then [ReadyNode(event.node, event.input)]
    else if event.Reactivated? && event.edge < |g.edges| then [ReadyNode(g.edges[event.edge].target, event.input)]
    else []
  }

  /** What the log says is ready, in order. */
  ghost function ReadyOf(g: Graph, log: Log): seq<ReadyNode> {
    if log == [] then [] else ReadyOf(g, log[..|log| - 1]) + Readies(g, log[|log| - 1])
  }

  /** The events of one agenda entry. */
  ghost function StepLog(g: Graph, s: State, it: Item): Log
    requires it.edge < |g.edges|
  {
    var e := g.edges[it.edge];
    if it.edge in g.back then [Reactivated(it.edge, s.Output(e.source))]
    else
      var put := PutToken(g, s, it);
      var live := LiveSources(g, put.Tok(e.target), e.target);
      [Put(it.edge, it.status)] +
      if !Saturated(g, put, e.target) then []
      else if live != [] then [Ran(e.target, Merge(g, s, live))]
      else [Pruned(e.target)]
  }

  ghost function ExecLog(g: Graph, s: State, agenda: seq<Item>): Log
    requires ValidItems(g, agenda)
    decreases g.Targets() - s.dead, |agenda|
  {
    if agenda == [] then []
    else
      var (s1, ready, owed) := Step(g, s, agenda[0]);
      StepLog(g, s, agenda[0]) + ExecLog(g, s1, owed + agenda[1..])
  }

  ghost function FinishLog(g: Graph, terminals: set<string>, r: Run, i: nat, out: Completion): Log
    requires i < |r.pending|
  {
    var n := r.pending[i].nodeId;
    if n in terminals then []
    else [Completed(n, out.data)] + ExecLog(g, r.s.(outputs := r.s.outputs[n := out.data]),
                                            CompleteAgenda(g, n, out.branch))
  }

  ghost function DriveLog(g: Graph, terminals: set<string>, r: Run, script: seq<Turn>): Log
    decreases |script|
  {
    if script == [] || r.pending == [] then []
    else
      var i := script[0].pick % |r.pending|;
      FinishLog(g, terminals, r, i, script[0].out) +
      DriveLog(g, terminals, FinishWith(g, terminals, r, i, script[0].out), script[1..])
  }

  /** Between deliveries no barrier is complete: a node with in-edges lacks a token. */
  ghost predicate Partial(g: Graph, tok: map<nat, Status>, n: string) {
    && (forall e :: e in tok ==> g.Gates(e, n))
    && (g.ForwardIn(n) != [] ==> exists e: nat :: g.Gates(e, n) && e !in tok)
  }

  /** The scheduler's tables for n are what the log says. */
  ghost predicate TracksAt(g: Graph, s: State, log: Log, n: string) {
    s.Tok(n) == TokensOf(g, log, n) && s.Output(n) == OutputOf(log, n)
  }

  ghost predicate TracksTables(g: Graph, s: State, log: Log) {
    forall n :: TracksAt(g, s, log, n)
  }

  ghost predicate AllPartial(g: Graph, s: State) {
    forall n :: Partial(g, s.Tok(n), n)
  }

  /** The log so far: it obeys the rule, the tables are what it says, no barrier is complete. */
  ghost predicate Faithful(g: Graph, s: State, log: Log) {
    LogOk(g, log) && TracksTables(g, s, log) && AllPartial(g, s)
  }

  lemma {:induction false} MergeTracks(g: Graph, s: State, log: Log, es: seq<nat>)
    requires InRange(g, es) && TracksTables(g, s, log)
    ensures Merge(g, s, es) == MergeOf(g, log, es)
  {
    hide TokensOf, OutputOf;
    if es != [] {
      MergeTracks(g, s, log, es[..|es| - 1]);
      assert TracksAt(g, s, log, g.edges[es[|es| - 1]].source);
    }
  }

  lemma {:induction false} LogOkAppend(g: Graph, log: Log, event: Event)
    requires LogOk(g, log) && EventOk(g, log, event)
    ensures LogOk(g, log + [event])
  {
    var all := log + [event];
    forall i | 0 <= i < |all|
      ensures EventOk(g, all[..i], all[i])
    {
      if i < |log| {
        assert all[..i] == log[..i];
      } else {
        assert all[..i] == log;
      }
    }
  }

  lemma LogAppend(g: Graph, log: Log, event: Event)
    ensures ReadyOf(g, log + [event]) == ReadyOf(g, log) + Readies(g, event)
    ensures forall n :: OutputOf(log + [event], n)
                        == if event.Completed? && event.node == n then event.data else OutputOf(log, n)
    ensures forall n :: TokensOf(g, log + [event], n) == TokensAfter(g, TokensOf(g, log, n), event, n)
  {
    var all := log + [event];
    assert all[..|all| - 1] == log;
  }

  /** A token put in the table and in the log. */
  lemma PutTracks(g: Graph, s: State, log: Log, it: Item)
    requires TracksTables(g, s, log) && it.edge < |g.edges| && it.edge !in g.back
    ensures TracksTables(g, PutToken(g, s, it), log + [Put(it.edge, it.status)])
  {
    var event, s', t := Put(it.edge, it.status), PutToken(g, s, it), g.edges[it.edge].target;
    LogAppend(g, log, event);
    hide TokensOf, OutputOf;
    forall n ensures TracksAt(g, s', log + [event], n) {
      assert TracksAt(g, s, log, n);
      assert g.Gates(it.edge, n) <==> n == t;
    }
  }

  lemma PutPartial(g: Graph, s: State, it: Item)
    requires AllPartial(g, s) && it.edge < |g.edges| && it.edge !in g.back
    ensures var s', t := PutToken(g, s, it), g.edges[it.edge].target;
            && (forall e :: e in s'.Tok(t) ==> g.Gates(e, t))
            && (forall n :: n != t ==> Partial(g, s'.Tok(n), n))
  {
    var s', t := PutToken(g, s, it), g.edges[it.edge].target;
    assert Partial(g, s.Tok(t), t);
    forall n | n != t ensures Partial(g, s'.Tok(n), n) {
      assert Partial(g, s.Tok(n), n) && s'.Tok(n) == s.Tok(n);
    }
  }

  /** Running with a full table obeys the rule. */
  lemma RanObeys(g: Graph, s: State, log: Log, t: string)
    requires TracksTables(g, s, log) && (forall e :: e in s.Tok(t) ==> g.Gates(e, t)) && Saturated(g, s, t)
    requires LiveSources(g, s.Tok(t), t) != []
    ensures EventOk(g, log, Ran(t, Merge(g, s, LiveSources(g, s.Tok(t), t))))
  {
    var live := LiveSources(g, s.Tok(t), t);
    MergeTracks(g, s, log, live);
    BarrierIsFullness(g, s.Tok(t), t);
    assert TracksAt(g, s, log, t);
    hide TokensOf, OutputOf, LiveSources, TracksTables, Merge, MergeOf;
    assert live[0] in live;
  }

  /** Pruning with a full table of DEAD tokens obeys the rule. */
  lemma PrunedObeys(g: Graph, s: State, log: Log, t: string)
    requires TracksTables(g, s, log) && (forall e :: e in s.Tok(t) ==> g.Gates(e, t)) && Saturated(g, s, t)
    requires LiveSources(g, s.Tok(t), t) == []
    ensures EventOk(g, log, Pruned(t))
  {
    BarrierIsFullness(g, s.Tok(t), t);
    assert TracksAt(g, s, log, t);
    var live := LiveSources(g, s.Tok(t), t);
    hide TokensOf, OutputOf, LiveSources, TracksTables;
    assert g.ForwardIn(t)[0] in g.ForwardIn(t);
    forall e: nat | g.Gates(e, t)
      ensures s.Tok(t)[e] == Dead
    {
      assert e !in live;
    }
  }

  /** Emptying a table is what running and pruning do to it. */
  lemma ClearTracks(g: Graph, s: State, log: Log, t: string, event: Event, s': State)
    requires TracksTables(g, s, log)
    requires (event.Ran? || event.Pruned?) && event.node == t
    requires s'.tokens == s.tokens[t := map[]] && s'.outputs == s.outputs
    ensures TracksTables(g, s', log + [event])
  {
    LogAppend(g, log, event);
    hide TokensOf, OutputOf;
    forall n ensures TracksAt(g, s', log + [event], n) {
      assert TracksAt(g, s, log, n);
    }
  }

  lemma ClearPartial(g: Graph, s: State, t: string, s': State)
    requires forall n :: n != t ==> Partial(g, s.Tok(n), n)
    requires s'.tokens == s.tokens[t := map[]]
    ensures AllPartial(g, s')
  {
    forall n ensures Partial(g, s'.Tok(n), n) {
      if n == t {
        EmptyIsPartial(g, n);
      } else {
        assert s'.Tok(n) == s.Tok(n);
      }
    }
  }

  lemma EmptyIsPartial(g: Graph, n: string)
    ensures Partial(g, map[], n)
  {
    if g.ForwardIn(n) != [] {
      assert g.ForwardIn(n)[0] in g.ForwardIn(n);
    }
  }

  /** One agenda entry, logged. */
  lemma StepBarrier(g: Graph, s: State, it: Item, log: Log)
    requires Faithful(g, s, log) && it.edge < |g.edges|
    ensures Faithful(g, Step(g, s, it).0, log + StepLog(g, s, it))
    ensures ReadyOf(g, log + StepLog(g, s, it)) == ReadyOf(g, log) + Step(g, s, it).1
  {
    hide LogOk, TokensOf, OutputOf, ReadyOf, Merge, LiveSources, TracksTables, AllPartial, EventOk;
    var t := g.edges[it.edge].target;
    if it.edge in g.back {
      StepReactivates(g, s, it, log);
    } else {
      var put, event := PutToken(g, s, it), Put(it.edge, it.status);
      var mid := log + [event];
      PutTracks(g, s, log, it);
      PutPartial(g, s, it);
      PutObeys(g, log, it);
      LogOkAppend(g, log, event);
      LogAppend(g, log, event);
      if !Saturated(g, put, t) {
        StillPartial(g, put, t);
        assert log + StepLog(g, s, it) == mid;
      } else {
        StepReacts(g, s, put, it, log, mid);
      }
    }
  }

  lemma PutObeys(g: Graph, log: Log, it: Item)
    requires it.edge < |g.edges| && it.edge !in g.back
    ensures EventOk(g, log, Put(it.edge, it.status))
  {
  }

  /** The step of a delivery that fills its target's table, field by field. */
  lemma ReactionFields(g: Graph, s: State, it: Item)
    requires it.edge < |g.edges| && it.edge !in g.back
    requires Saturated(g, PutToken(g, s, it), g.edges[it.edge].target)
    ensures var t, put, s' := g.edges[it.edge].target, PutToken(g, s, it), Step(g, s, it).0;
            var live := LiveSources(g, put.Tok(t), t);
            && s'.tokens == put.tokens[t := map[]] && s'.outputs == put.outputs == s.outputs
            && Step(g, s, it).1 == (if live == [] then []
                                    else [ReadyNode(t, Merge(g, put.(tokens := put.tokens[t := map[]]), live))])
            && StepLog(g, s, it) == [Put(it.edge, it.status)]
               + [if live != [] then Ran(t, Merge(g, s, live)) else Pruned(t)]
  {
    hide Merge, LiveSources, Graph.ForwardIn, Graph.ForwardOut;
  }

  lemma StepReacts(g: Graph, s: State, put: State, it: Item, log: Log, mid: Log)
    requires it.edge < |g.edges| && it.edge !in g.back && put == PutToken(g, s, it)
    requires mid == log + [Put(it.edge, it.status)] && LogOk(g, mid) && TracksTables(g, put, mid)
    requires ReadyOf(g, mid) == ReadyOf(g, log)
    requires var t := g.edges[it.edge].target;
             && Saturated(g, put, t) && (forall e :: e in put.Tok(t) ==> g.Gates(e, t))
             && (forall n :: n != t ==> Partial(g, put.Tok(n), n))
    ensures Faithful(g, Step(g, s, it).0, log + StepLog(g, s, it))
    ensures ReadyOf(g, log + StepLog(g, s, it)) == ReadyOf(g, log) + Step(g, s, it).1
  {
    hide LogOk, TokensOf, OutputOf, ReadyOf, Merge, LiveSources, TracksTables, AllPartial, EventOk, Step, StepLog,
         PutToken;
    ReactionFields(g, s, it);
    var t, s' := g.edges[it.edge].target, Step(g, s, it).0;
    var live, cleared := LiveSources(g, put.Tok(t), t), put.(tokens := put.tokens[t := map[]]);
    SameOutputsSameMerge(g, s, put, live);
    SameOutputsSameMerge(g, put, cleared, live);
    var event := if live != [] then Ran(t, Merge(g, put, live)) else Pruned(t);
    if live != [] {
      RanObeys(g, put, mid, t);
    } else {
      PrunedObeys(g, put, mid, t);
    }
    ClearTracks(g, put, mid, t, event, s');
    ClearPartial(g, put, t, s');
    LogOkAppend(g, mid, event);
    LogAppend(g, mid, event);
    assert log + StepLog(g, s, it) == mid + [event];
  }

  lemma StepReactivates(g: Graph, s: State, it: Item, log: Log)
    requires Faithful(g, s, log) && it.edge < |g.edges| && it.edge in g.back
    ensures Faithful(g, Step(g, s, it).0, log + StepLog(g, s, it))
    ensures ReadyOf(g, log + StepLog(g, s, it)) == ReadyOf(g, log) + Step(g, s, it).1
  {
    var source := g.edges[it.edge].source;
    var event := Reactivated(it.edge, s.Output(source));
    hide LogOk, TokensOf, ReadyOf, OutputOf, AllPartial;
    assert TracksAt(g, s, log, source);
    LogOkAppend(g, log, event);
    LogAppend(g, log, event);
    forall n ensures TracksAt(g, s, log + [event], n) {
      assert TracksAt(g, s, log, n);
    }
  }

  lemma StillPartial(g: Graph, s: State, t: string)
    requires !Saturated(g, s, t) && (forall e :: e in s.Tok(t) ==> g.Gates(e, t))
    requires forall n :: n != t ==> Partial(g, s.Tok(n), n)
    ensures AllPartial(g, s)
  {
    BarrierIsFullness(g, s.Tok(t), t);
    assert Partial(g, s.Tok(t), t);
  }

  lemma {:induction false} SameOutputsSameMerge(g: Graph, s: State, s': State, es: seq<nat>)
    requires InRange(g, es) && s'.outputs == s.outputs
    ensures Merge(g, s', es) == Merge(g, s, es)
  {
    if es != [] {
      SameOutputsSameMerge(g, s, s', es[..|es| - 1]);
    }
  }

  lemma {:induction false} ExecBarrier(g: Graph, s: State, agenda: seq<Item>, log: Log)
    requires Faithful(g, s, log) && ValidItems(g, agenda)
    ensures Faithful(g, Exec(g, s, agenda).0, log + ExecLog(g, s, agenda))
    ensures ReadyOf(g, log + ExecLog(g, s, agenda)) == ReadyOf(g, log) + Exec(g, s, agenda).1
    decreases g.Targets() - s.dead, |agenda|
  {
    hide Faithful, Step, StepLog, ReadyOf;
    if agenda == [] {
      assert log + [] == log;
      assert ReadyOf(g, log) + [] == ReadyOf(g, log);
    } else {
      var (s1, ready, owed) := Step(g, s, agenda[0]);
      var mid := log + StepLog(g, s, agenda[0]);
      var rest := owed + agenda[1..];
      StepBarrier(g, s, agenda[0], log);
      ExecBarrier(g, s1, rest, mid);
      assert log + ExecLog(g, s, agenda) == mid + ExecLog(g, s1, rest);
      assert ReadyOf(g, log) + (ready + Exec(g, s1, rest).1) == ReadyOf(g, log) + ready + Exec(g, s1, rest).1;
    }
  }

  /** All nodes the run has made ready are START and those the log names, as often as it names them. */
  ghost predicate Accounts(g: Graph, r: Run, log: Log) {
    multiset(r.pending) + multiset(r.done) == multiset{ReadyNode(g.start, map[])} + multiset(ReadyOf(g, log))
  }

  lemma CompletedTracks(g: Graph, s: State, log: Log, n: string, data: Payload)
    requires Faithful(g, s, log)
    ensures Faithful(g, s.(outputs := s.outputs[n := data]), log + [Completed(n, data)])
    ensures ReadyOf(g, log + [Completed(n, data)]) == ReadyOf(g, log)
  {
    hide LogOk, TokensOf, OutputOf, ReadyOf;
    var s' := s.(outputs := s.outputs[n := data]);
    LogOkAppend(g, log, Completed(n, data));
    LogAppend(g, log, Completed(n, data));
    forall m ensures TracksAt(g, s', log + [Completed(n, data)], m) {
      assert TracksAt(g, s, log, m);
    }
    forall m ensures Partial(g, s'.Tok(m), m) {
      assert Partial(g, s.Tok(m), m);
    }
  }

  lemma WithoutAtCounts<T>(rs: seq<T>, i: nat)
    requires i < |rs|
    ensures multiset(rs) == multiset(WithoutAt(rs, i)) + multiset{rs[i]}
  {
    assert rs == rs[..i] + [rs[i]] + rs[i + 1..];
  }

  lemma AccountsFinish(g: Graph, r: Run, i: nat, log: Log, more: seq<ReadyNode>, log': Log, s': State)
    requires i < |r.pending| && Accounts(g, r, log) && ReadyOf(g, log') == ReadyOf(g, log) + more
    ensures Accounts(g, Run(s', WithoutAt(r.pending, i) + more, r.done + [r.pending[i]]), log')
  {
    hide ReadyOf;
    WithoutAtCounts(r.pending, i);
    var rest, node := WithoutAt(r.pending, i), r.pending[i];
    assert multiset(rest + more) == multiset(rest) + multiset(more);
    assert multiset(r.done + [node]) == multiset(r.done) + multiset{node};
    assert multiset(ReadyOf(g, log) + more) == multiset(ReadyOf(g, log)) + multiset(more);
    MoveOver(multiset(r.pending), multiset(r.done), multiset{ReadyNode(g.start, map[])}, multiset(ReadyOf(g, log)),
             multiset(rest), multiset(more), multiset{node});
  }

  /** One node moves from pending to done while others become pending. */
  lemma MoveOver<T>(pending: multiset<T>, done: multiset<T>, first: multiset<T>, logged: multiset<T>,
                    rest: multiset<T>, more: multiset<T>, node: multiset<T>)
    requires pending + done == first + logged && pending == rest + node
    ensures rest + more + (done + node) == first + (logged + more)
  {
    forall x ensures (rest + more + (done + node))[x] == (first + (logged + more))[x] {
      assert (pending + done)[x] == (first + logged)[x];
    }
  }

  lemma FinishBarrier(g: Graph, terminals: set<string>, r: Run, i: nat, out: Completion, log: Log)
    requires i < |r.pending| && Faithful(g, r.s, log) && Accounts(g, r, log)
    ensures var r', log' := FinishWith(g, terminals, r, i, out), log + FinishLog(g, terminals, r, i, out);
            Faithful(g, r'.s, log') && Accounts(g, r', log')
  {
    hide Faithful, ReadyOf, Exec, ExecLog, Accounts;
    var n := r.pending[i].nodeId;
    if n in terminals {
      assert log + [] == log;
      assert ReadyOf(g, log) + [] == ReadyOf(g, log);
      AccountsFinish(g, r, i, log, [], log, r.s);
      assert WithoutAt(r.pending, i) + [] == WithoutAt(r.pending, i);
    } else {
      var s1, agenda := r.s.(outputs := r.s.outputs[n := out.data]), CompleteAgenda(g, n, out.branch);
      var mid := log + [Completed(n, out.data)];
      CompletedTracks(g, r.s, log, n, out.data);
      ExecBarrier(g, s1, agenda, mid);
      assert log + FinishLog(g, terminals, r, i, out) == mid + ExecLog(g, s1, agenda);
      AccountsFinish(g, r, i, log, Exec(g, s1, agenda).1, mid + ExecLog(g, s1, agenda), Exec(g, s1, agenda).0);
    }
  }

  lemma {:induction false} DriveBarrier(g: Graph, terminals: set<string>, r: Run, script: seq<Turn>, log: Log)
    requires Faithful(g, r.s, log) && Accounts(g, r, log)
    ensures var r', log' := Drive(g, terminals, r, script), log + DriveLog(g, terminals, r, script);
            Faithful(g, r'.s, log') && Accounts(g, r', log')
    decreases |script|
  {
    hide Faithful, Accounts, FinishWith, FinishLog;
    if script == [] || r.pending == [] {
      assert log + [] == log;
    } else {
      var i := script[0].pick % |r.pending|;
      var r1, first := FinishWith(g, terminals, r, i, script[0].out), FinishLog(g, terminals, r, i, script[0].out);
      FinishBarrier(g, terminals, r, i, script[0].out, log);
      DriveBarrier(g, terminals, r1, script[1..], log + first);
      assert log + DriveLog(g, terminals, r, script) == log + first + DriveLog(g, terminals, r1, script[1..]);
    }
  }

  /**
   The join barrier over every run of every graph. The log explains every launch, each event in it
   obeys the rule, the tables are what the log says, and between calls no barrier is complete.
   */
  lemma BarrierHolds(g: Graph, terminals: set<string>, script: seq<Turn>)
    ensures var r, log := Drive(g, terminals, Begin(g), script), DriveLog(g, terminals, Begin(g), script);
            && LogOk(g, log)
            && Accounts(g, r, log)
            && TracksTables(g, r.s, log) && AllPartial(g, r.s)
  {
    var r := Begin(g);
    forall n ensures Partial(g, EMPTY_STATE.Tok(n), n) {
      EmptyIsPartial(g, n);
    }
    assert Faithful(g, r.s, []);
    DriveBarrier(g, terminals, r, script, []);
    assert [] + DriveLog(g, terminals, r, script) == DriveLog(g, terminals, r, script);
  }
}
