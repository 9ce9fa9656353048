/**
 Back-edge detection: the iterative depth-first search from START that decides which edges
 close a cycle, against what a back-edge means for the graph.
 */
module BackEdges {
  import opened Workflow
  import opened Digraph
  import opened DagModel

  ghost function ArcsOf(edges: seq<Edge>): Arcs {
    set e | 0 <= e < |edges| :: (edges[e].source, edges[e].target)
  }

  ghost predicate NoSelfEdges(edges: seq<Edge>) {
    forall e :: 0 <= e < |edges| ==> edges[e].source != edges[e].target
  }

  /**
   What the search establishes. `finish` dates the nodes reachable from start in the order in which
   the search finished them, start last; an edge is a back-edge exactly when its reachable source
   finished before its target, and then its target reaches its source.
   */
  ghost predicate SearchResult(start: string, edges: seq<Edge>, back: set<nat>, finish: map<string, nat>) {
    && start in finish
    && (forall n :: n in finish <==> Reaches(ArcsOf(edges), start, n))
    && (forall u, v :: u in finish && v in finish && finish[u] == finish[v] ==> u == v)
    && (forall u :: u in finish ==> finish[u] <= finish[start])
    && (forall e :: e in back ==> e < |edges| && edges[e].source in finish)
    && (forall e: nat :: e < |edges| && edges[e].source in finish ==> edges[e].target in finish)
    && (forall e: nat :: e < |edges| && edges[e].source in finish
                         ==> (e in back <==> finish[edges[e].source] < finish[edges[e].target]))
    && (forall e :: e in back ==> Reaches(ArcsOf(edges), edges[e].target, edges[e].source))
  }

  /** A stack entry: a node and how many of its out-edges have been examined. */
  datatype Frame = Frame(node: string, next: nat)

  /**
   The search in progress. Gray nodes are on the stack at their depth, black ones have a finishing
   date; the remaining nodes are white. `seen` holds the examined edges.
   */
  datatype Search = Search(stack: seq<Frame>, back: set<nat>, depth: map<string, nat>, finish: map<string, nat>,
                           seen: set<nat>) {

    ghost predicate StackShape(start: string) {
      && (forall k :: 0 <= k < |stack| ==> stack[k].node in depth && depth[stack[k].node] == k)
      && (forall n :: n in depth ==> n !in finish && depth[n] < |stack| && stack[depth[n]].node == n)
      && (start in depth || start in finish)
      && (if |stack| > 0 then stack[0].node == start
          else start in finish && forall u :: u in finish ==> finish[u] <= finish[start])
    }

    ghost predicate FrameBounds(edges: seq<Edge>) {
      forall k :: 0 <= k < |stack| ==> stack[k].next <= |OutOf(edges, stack[k].node)|
    }

    ghost predicate FinishShape() {
      && (forall u, v :: u in finish && v in finish && finish[u] == finish[v] ==> u == v)
      && (forall u :: u in finish ==> finish[u] < |finish|)
    }

    ghost predicate SeenShape(edges: seq<Edge>) {
      && back <= seen
      && (forall e :: e in seen ==> e < |edges| && (edges[e].source in depth || edges[e].source in finish))
      && (forall e: nat :: e < |edges| && edges[e].source in finish ==> e in seen)
      && (forall k, x :: 0 <= k < |stack| && 0 <= x < |OutOf(edges, stack[k].node)|
                         ==> (OutOf(edges, stack[k].node)[x] in seen <==> x < stack[k].next))
    }

    /** Where the target of an examined edge can be. */
    ghost predicate Classified(edges: seq<Edge>, e: nat)
      requires e < |edges|
    {
      var u, v := edges[e].source, edges[e].target;
      && (u in finish ==> if e in back then v in depth || (v in finish && finish[u] < finish[v])
                          else v in finish && finish[v] < finish[u])
      && (u in depth ==> if e in back then v in depth && depth[v] <= depth[u]
                         else v in finish || (v in depth && depth[v] == depth[u] + 1))
    }

    ghost predicate EdgesClassified(edges: seq<Edge>) {
      forall e: nat :: e in seen && e < |edges| ==> Classified(edges, e)
    }

    ghost predicate OnlyReachable(start: string, edges: seq<Edge>) {
      && (forall n :: n in depth || n in finish ==> Reaches(ArcsOf(edges), start, n))
      && (forall i, j :: 0 <= i <= j < |stack| ==> Reaches(ArcsOf(edges), stack[i].node, stack[j].node))
      && (forall e :: e in back && e < |edges| ==> Reaches(ArcsOf(edges), edges[e].target, edges[e].source))
    }

    ghost predicate Inv(start: string, edges: seq<Edge>) {
      && StackShape(start) && FrameBounds(edges) && FinishShape() && SeenShape(edges) && EdgesClassified(edges)
      && OnlyReachable(start, edges)
    }
  }

  lemma InitialInv(start: string, edges: seq<Edge>)
    ensures Search([Frame(start, 0)], {}, map[start := 0], map[], {}).Inv(start, edges)
  {
    ReachesSelf(ArcsOf(edges), start);
  }

  /** The node whose out-edges are being examined. */
  function Top(s: Search): Frame
    requires |s.stack| > 0
  {
    s.stack[|s.stack| - 1]
  }

  ghost predicate CanExamine(edges: seq<Edge>, s: Search) {
    |s.stack| > 0 && Top(s).next < |OutOf(edges, Top(s).node)|
  }

  /** The edge the top of the stack examines next. */
  function NextEdge(edges: seq<Edge>, s: Search): (e: nat)
    requires CanExamine(edges, s)
    ensures e < |edges| && edges[e].source == Top(s).node
  {
    OutOf(edges, Top(s).node)[Top(s).next]
  }

  function Advanced(s: Search): Search
    requires |s.stack| > 0
  {
    s.(stack := s.stack[|s.stack| - 1 := Frame(Top(s).node, Top(s).next + 1)])
  }

  /** After examining an edge to a gray or black node. */
  function Examined(edges: seq<Edge>, s: Search): Search
    requires CanExamine(edges, s)
  {
    var e := NextEdge(edges, s);
    Advanced(s).(seen := s.seen + {e}, back := if edges[e].target in s.depth then s.back + {e} else s.back)
  }

  /** After examining an edge to a white node. */
  function Pushed(edges: seq<Edge>, s: Search): Search
    requires CanExamine(edges, s)
  {
    var e := NextEdge(edges, s);
    var v := edges[e].target;
    Search(Advanced(s).stack + [Frame(v, 0)], s.back, s.depth[v := |s.stack|], s.finish, s.seen + {e})
  }

  /** After the last out-edge of the top node. */
  function Popped(s: Search): Search
    requires |s.stack| > 0
  {
    var u := Top(s).node;
    Search(s.stack[..|s.stack| - 1], s.back, map n | n in s.depth && n != u :: s.depth[n], s.finish[u := |s.finish|],
           s.seen)
  }

  ghost predicate Known(s: Search, v: string) {
    v in s.depth || v in s.finish
  }

  /** Different positions of an increasing seq hold different numbers. */
  lemma DistinctPositions(es: seq<nat>, i: nat, j: nat)
    requires Increasing(es) && i < |es| && j < |es| && i != j
    ensures es[i] != es[j]
  {
    if i < j {
      assert es[i] < es[j];
    } else {
      assert es[j] < es[i];
    }
  }

  lemma ExamineSeen(start: string, edges: seq<Edge>, s: Search)
    requires CanExamine(edges, s) && s.StackShape(start) && s.SeenShape(edges)
    ensures NextEdge(edges, s) !in s.seen && s.back <= s.seen
    ensures forall f :: f in s.seen ==> f < |edges| && Known(s, edges[f].source)
    ensures Examined(edges, s).SeenShape(edges)
  {
    var e, top, s' := NextEdge(edges, s), |s.stack| - 1, Examined(edges, s);
    forall k, x | 0 <= k < |s'.stack| && 0 <= x < |OutOf(edges, s'.stack[k].node)|
      ensures OutOf(edges, s'.stack[k].node)[x] in s'.seen <==> x < s'.stack[k].next
    {
      var es := OutOf(edges, s.stack[k].node);
      assert s'.stack[k].node == s.stack[k].node;
      if k == top {
        if x != s.stack[k].next {
          DistinctPositions(es, x, s.stack[k].next);
        }
      } else {
        assert edges[es[x]].source == s.stack[k].node != s.stack[top].node;
      }
    }
  }

  lemma ExamineClassified(start: string, edges: seq<Edge>, s: Search)
    requires CanExamine(edges, s) && s.StackShape(start) && s.EdgesClassified(edges)
    requires NextEdge(edges, s) !in s.seen && Known(s, edges[NextEdge(edges, s)].target)
    requires s.back <= s.seen
    ensures Examined(edges, s).EdgesClassified(edges)
  {
    var e, s' := NextEdge(edges, s), Examined(edges, s);
    forall f: nat | f in s'.seen && f < |edges|
      ensures s'.Classified(edges, f)
    {
      if f != e {
        assert s.Classified(edges, f);
      } else {
        assert s.stack[|s.stack| - 1].node == edges[f].source;
      }
    }
  }

  lemma ExamineReachable(start: string, edges: seq<Edge>, s: Search)
    requires CanExamine(edges, s) && s.StackShape(start) && s.OnlyReachable(start, edges)
    ensures Examined(edges, s).OnlyReachable(start, edges)
  {
    hide Reaches;
    var e, s' := NextEdge(edges, s), Examined(edges, s);
    assert forall k :: 0 <= k < |s.stack| ==> s'.stack[k].node == s.stack[k].node;
    if edges[e].target in s.depth {
      assert Reaches(ArcsOf(edges), s.stack[s.depth[edges[e].target]].node, s.stack[|s.stack| - 1].node);
    }
  }

  lemma ExamineStack(start: string, edges: seq<Edge>, s: Search)
    requires CanExamine(edges, s) && s.StackShape(start) && s.FrameBounds(edges)
    ensures Examined(edges, s).StackShape(start) && Examined(edges, s).FrameBounds(edges)
  {
    var s' := Examined(edges, s);
    assert forall k :: 0 <= k < |s.stack| ==> s'.stack[k].node == s.stack[k].node;
  }

  /** An edge to a gray node closes a cycle; an edge to a black one does not. */
  lemma ExamineKnown(start: string, edges: seq<Edge>, s: Search)
    requires s.Inv(start, edges) && CanExamine(edges, s) && Known(s, edges[NextEdge(edges, s)].target)
    ensures Examined(edges, s).Inv(start, edges)
    ensures var e, s' := NextEdge(edges, s), Examined(edges, s);
            && s'.stack == s.stack[|s.stack| - 1 := Frame(Top(s).node, Top(s).next + 1)]
            && s'.back == (if edges[e].target in s.depth then s.back + {e} else s.back)
  {
    hide Reaches, OutOf, Search.OnlyReachable, Search.SeenShape, Search.EdgesClassified, Search.StackShape,
         Search.FrameBounds;
    ExamineSeen(start, edges, s);
    ExamineClassified(start, edges, s);
    ExamineReachable(start, edges, s);
    ExamineStack(start, edges, s);
  }

  lemma PushBounds(start: string, edges: seq<Edge>, s: Search)
    requires CanExamine(edges, s) && s.FrameBounds(edges)
    ensures Pushed(edges, s).FrameBounds(edges)
  {
    var s' := Pushed(edges, s);
    assert forall k :: 0 <= k < |s.stack| - 1 ==> s'.stack[k] == s.stack[k];
  }

  lemma PushStack(start: string, edges: seq<Edge>, s: Search)
    requires CanExamine(edges, s) && s.StackShape(start) && !Known(s, edges[NextEdge(edges, s)].target)
    ensures Pushed(edges, s).StackShape(start)
  {
    hide OutOf;
    var s' := Pushed(edges, s);
    var v := edges[NextEdge(edges, s)].target;
    assert forall k :: 0 <= k < |s.stack| ==> s'.stack[k].node == s.stack[k].node;
    forall k | 0 <= k < |s'.stack|
      ensures s'.stack[k].node in s'.depth && s'.depth[s'.stack[k].node] == k
    {
    }
    forall n | n in s'.depth
      ensures n !in s'.finish && s'.depth[n] < |s'.stack| && s'.stack[s'.depth[n]].node == n
    {
      if n != v {
        assert n in s.depth;
      }
    }
  }

  lemma PushSeen(start: string, edges: seq<Edge>, s: Search)
    requires CanExamine(edges, s) && s.StackShape(start) && s.SeenShape(edges)
    requires !Known(s, edges[NextEdge(edges, s)].target)
    ensures Pushed(edges, s).SeenShape(edges)
  {
    ExamineSeen(start, edges, s);
    var s', mid := Pushed(edges, s), Examined(edges, s);
    assert forall k :: 0 <= k < |s.stack| ==> s'.stack[k] == mid.stack[k];
  }

  lemma PushClassified(start: string, edges: seq<Edge>, s: Search)
    requires CanExamine(edges, s) && s.StackShape(start) && s.EdgesClassified(edges)
    requires NextEdge(edges, s) !in s.seen && !Known(s, edges[NextEdge(edges, s)].target)
    requires s.back <= s.seen && forall f :: f in s.seen ==> f < |edges| && Known(s, edges[f].source)
    ensures Pushed(edges, s).EdgesClassified(edges)
  {
    var e, s' := NextEdge(edges, s), Pushed(edges, s);
    forall f: nat | f in s'.seen && f < |edges|
      ensures s'.Classified(edges, f)
    {
      if f != e {
        assert s.Classified(edges, f);
      } else {
        assert s.stack[|s.stack| - 1].node == edges[f].source;
      }
    }
  }

  lemma PushReachable(start: string, edges: seq<Edge>, s: Search)
    requires CanExamine(edges, s) && s.StackShape(start) && s.OnlyReachable(start, edges)
    ensures Pushed(edges, s).OnlyReachable(start, edges)
  {
    hide Reaches;
    var s', top := Pushed(edges, s), |s.stack| - 1;
    var v, arcs := edges[NextEdge(edges, s)].target, ArcsOf(edges);
    assert forall k :: 0 <= k < |s.stack| ==> s'.stack[k].node == s.stack[k].node;
    assert (s.stack[top].node, v) in arcs;
    ReachesSelf(arcs, v);
    ReachesThenArc(arcs, start, s.stack[top].node, v);
    forall i | 0 <= i <= top
      ensures Reaches(arcs, s'.stack[i].node, v)
    {
      ReachesThenArc(arcs, s.stack[i].node, s.stack[top].node, v);
    }
  }

  /** An edge to a white node puts it on the stack. */
  lemma ExamineNew(start: string, edges: seq<Edge>, s: Search)
    requires s.Inv(start, edges) && CanExamine(edges, s) && !Known(s, edges[NextEdge(edges, s)].target)
    ensures Pushed(edges, s).Inv(start, edges)
    ensures var v, s' := edges[NextEdge(edges, s)].target, Pushed(edges, s);
            && s'.stack == s.stack[|s.stack| - 1 := Frame(Top(s).node, Top(s).next + 1)] + [Frame(v, 0)]
            && s'.back == s.back
  {
    hide Reaches, OutOf, Search.OnlyReachable, Search.SeenShape, Search.EdgesClassified, Search.StackShape,
         Search.FrameBounds;
    ExamineSeen(start, edges, s);
    PushStack(start, edges, s);
    PushSeen(start, edges, s);
    PushClassified(start, edges, s);
    PushReachable(start, edges, s);
    PushBounds(start, edges, s);
  }

  lemma PopStack(start: string, edges: seq<Edge>, s: Search)
    requires |s.stack| > 0 && s.StackShape(start) && s.FinishShape()
    ensures Popped(s).StackShape(start)
  {
    hide Search.FinishShape;
    PopStart(start, s);
    PopDepths(start, s);
  }

  lemma PopStart(start: string, s: Search)
    requires |s.stack| > 0 && s.StackShape(start) && s.FinishShape()
    ensures var s' := Popped(s);
            && (start in s'.depth || start in s'.finish)
            && (if |s'.stack| > 0 then s'.stack[0].node == start
                else start in s'.finish && forall u :: u in s'.finish ==> s'.finish[u] <= s'.finish[start])
  {
    var u, s' := Top(s).node, Popped(s);
    if |s.stack| == 1 {
      assert s.stack[0].node == u == start;
      assert forall v :: v in s'.finish ==> s'.finish[v] <= s'.finish[u];
    } else {
      assert s'.stack[0] == s.stack[0];
      assert start != u;
    }
  }

  lemma PopDepths(start: string, s: Search)
    requires |s.stack| > 0 && s.StackShape(start)
    ensures var s' := Popped(s);
            && (forall k :: 0 <= k < |s'.stack| ==> s'.stack[k].node in s'.depth && s'.depth[s'.stack[k].node] == k)
            && (forall n :: n in s'.depth ==> n !in s'.finish && s'.depth[n] < |s'.stack|
                                              && s'.stack[s'.depth[n]].node == n)
  {
    var u, s' := Top(s).node, Popped(s);
    assert s.depth[u] == |s.stack| - 1;
    forall k | 0 <= k < |s'.stack| ensures s'.stack[k].node in s'.depth && s'.depth[s'.stack[k].node] == k {
      assert s'.stack[k] == s.stack[k];
    }
    forall n | n in s'.depth ensures n !in s'.finish && s'.depth[n] < |s'.stack| && s'.stack[s'.depth[n]].node == n {
      assert s.stack[s.depth[n]].node == n;
    }
  }

  lemma PopFinish(start: string, edges: seq<Edge>, s: Search)
    requires |s.stack| > 0 && s.StackShape(start) && s.FinishShape()
    ensures Popped(s).FinishShape()
  {
    assert Top(s).node !in s.finish;
    assert Popped(s).finish.Keys == s.finish.Keys + {Top(s).node};
    assert |Popped(s).finish| == |s.finish| + 1;
  }

  lemma PopSeen(start: string, edges: seq<Edge>, s: Search)
    requires |s.stack| > 0 && s.StackShape(start) && s.SeenShape(edges)
    requires Top(s).next == |OutOf(edges, Top(s).node)|
    ensures Popped(s).SeenShape(edges)
  {
    var u, s' := Top(s).node, Popped(s);
    forall e: nat | e < |edges| && edges[e].source in s'.finish
      ensures e in s'.seen
    {
      if edges[e].source == u {
        var es := OutOf(edges, u);
        assert e in es;
        var x :| 0 <= x < |es| && es[x] == e;
        assert es[x] in s.seen;
      }
    }
  }

  lemma PopClassified(start: string, edges: seq<Edge>, s: Search)
    requires |s.stack| > 0 && s.StackShape(start) && s.FinishShape() && s.EdgesClassified(edges) && NoSelfEdges(edges)
    ensures Popped(s).EdgesClassified(edges)
  {
    var s' := Popped(s);
    forall f: nat | f in s'.seen && f < |edges|
      ensures s'.Classified(edges, f)
    {
      assert s.Classified(edges, f);
    }
  }

  lemma PopReachable(start: string, edges: seq<Edge>, s: Search)
    requires |s.stack| > 0 && s.StackShape(start) && s.OnlyReachable(start, edges) && s.FrameBounds(edges)
    ensures Popped(s).OnlyReachable(start, edges) && Popped(s).FrameBounds(edges)
  {
    hide Reaches, OutOf;
    assert Top(s).node in s.depth;
  }

  /** A node with no edge left to examine is finished. */
  lemma FinishTop(start: string, edges: seq<Edge>, s: Search)
    requires s.Inv(start, edges) && |s.stack| > 0 && NoSelfEdges(edges)
    requires Top(s).next == |OutOf(edges, Top(s).node)|
    ensures Popped(s).Inv(start, edges)
    ensures var s' := Popped(s);
            s'.stack == s.stack[..|s.stack| - 1] && s'.back == s.back
  {
    hide Reaches, OutOf, Search.OnlyReachable, Search.SeenShape, Search.EdgesClassified, Search.StackShape,
         Search.FrameBounds;
    PopStack(start, edges, s);
    PopFinish(start, edges, s);
    PopSeen(start, edges, s);
    PopClassified(start, edges, s);
    PopReachable(start, edges, s);
  }

  lemma StackBounds(start: string, edges: seq<Edge>, s: Search)
    requires s.Inv(start, edges) && |s.stack| > 0
    ensures Top(s).next <= |OutOf(edges, Top(s).node)| && Known(s, Top(s).node)
    ensures Top(s).next < |OutOf(edges, Top(s).node)| ==> NextEdge(edges, s) == OutOf(edges, Top(s).node)[Top(s).next]
  {
  }

  /** With the stack empty, the invariant is the result. */
  lemma SearchComplete(start: string, edges: seq<Edge>, s: Search)
    requires s.Inv(start, edges) && s.stack == []
    ensures SearchResult(start, edges, s.back, s.finish)
  {
    hide Reaches;
    assert s.depth == map[];
    forall e: nat | e < |edges| && edges[e].source in s.finish
      ensures edges[e].target in s.finish
      ensures e in s.back <==> s.finish[edges[e].source] < s.finish[edges[e].target]
    {
      assert s.Classified(edges, e);
    }
    assert ClosedUnder(ArcsOf(edges), s.finish.Keys);
    forall n | Reaches(ArcsOf(edges), start, n)
      ensures n in s.finish
    {
      ReachesStaysIn(ArcsOf(edges), s.finish.Keys, start, n);
    }
  }

  datatype Color = Gray | Black

  /** The colour table: gray nodes are on the stack, black ones finished, white ones absent. */
  ghost predicate Colored(color: map<string, Color>, s: Search) {
    forall n :: if n in s.depth then n in color && color[n] == Gray
                else if n in s.finish then n in color && color[n] == Black
                else n !in color
  }

  lemma ColoredInitially(start: string)
    ensures Colored(map[start := Gray], Search([Frame(start, 0)], {}, map[start := 0], map[], {}))
  {
  }

  lemma ColoredKnown(color: map<string, Color>, s: Search, v: string)
    requires Colored(color, s)
    ensures v in color <==> Known(s, v)
    ensures v in color ==> (color[v] == Gray <==> v in s.depth)
  {
  }

  lemma ColoredStill(color: map<string, Color>, edges: seq<Edge>, s: Search)
    requires Colored(color, s) && CanExamine(edges, s)
    ensures Colored(color, Examined(edges, s))
  {
  }

  lemma ColoredPush(color: map<string, Color>, edges: seq<Edge>, s: Search)
    requires Colored(color, s) && CanExamine(edges, s)
    ensures var v := edges[NextEdge(edges, s)].target;
            !Known(s, v) ==> Colored(color[v := Gray], Pushed(edges, s)) && color[v := Gray].Keys == color.Keys + {v}
  {
    hide OutOf;
  }

  lemma ColoredPop(color: map<string, Color>, s: Search)
    requires |s.stack| > 0 && Colored(color, s)
    ensures Colored(color[Top(s).node := Black], Popped(s))
  {
  }

  /**
   The depth-first search itself. Returns the back-edges, and as a witness the finishing dates.
   */
  method ComputeBackEdges(start: string, edges: seq<Edge>) returns (back: set<nat>, ghost finish: map<string, nat>)
    requires NoSelfEdges(edges)
    ensures SearchResult(start, edges, back, finish)
    ensures forall e :: e in back ==> e < |edges| && Reaches(ArcsOf(edges), edges[e].target, edges[e].source)
    ensures back == {} <==> forall n :: Reaches(ArcsOf(edges), start, n) ==> !OnCycle(ArcsOf(edges), n)
  {
    hide OnCycle, Reaches, SearchResult, Search.Inv, OutOf, Examined, Pushed, Popped, Advanced, Colored, NextEdge;
    back := {};
    var color: map<string, Color> := map[start := Gray];
    var stack := [Frame(start, 0)];
    ghost var s := Search(stack, back, map[start := 0], map[], {});
    ghost var nodes := {start} + set e | 0 <= e < |edges| :: edges[e].target;
    InitialInv(start, edges);
    ColoredInitially(start);
    while stack != []
      invariant s.Inv(start, edges) && s.stack == stack && s.back == back
      invariant Colored(color, s) && color.Keys <= nodes
      decreases nodes - color.Keys, |stack|, if stack == [] then 0
                else |OutOf(edges, stack[|stack| - 1].node)| - stack[|stack| - 1].next
    {
      var Frame(node, idx) := stack[|stack| - 1];
      var out := OutOf(edges, node);
      StackBounds(start, edges, s);
      ghost var before := s;
      if idx < |out| {
        stack := stack[|stack| - 1 := Frame(node, idx + 1)];
        var target := edges[out[idx]].target;
        ColoredKnown(color, s, target);
        if target in color {
          ExamineKnown(start, edges, s);
          if color[target] == Gray {
            back := back + {out[idx]};
          }
          s := Examined(edges, s);
          ColoredStill(color, edges, before);
        } else {
          ExamineNew(start, edges, s);
          s := Pushed(edges, s);
          ColoredPush(color, edges, before);
          assert target in nodes - color.Keys;
          color := color[target := Gray];
          stack := stack + [Frame(target, 0)];
        }
      } else {
        FinishTop(start, edges, s);
        s := Popped(s);
        ColoredKnown(color, before, node);
        ColoredPop(color, before);
        assert node in color;
        color := color[node := Black];
        stack := stack[..|stack| - 1];
      }
    }
    SearchComplete(start, edges, s);
    finish := s.finish;
    NoBackEdgesIffAcyclic(start, edges, back, finish);
    BackEdgesReturn(start, edges, back, finish);
  }

  lemma BackEdgesReturn(start: string, edges: seq<Edge>, back: set<nat>, finish: map<string, nat>)
    requires SearchResult(start, edges, back, finish)
    ensures forall e :: e in back ==> e < |edges| && Reaches(ArcsOf(edges), edges[e].target, edges[e].source)
  {
    hide Reaches;
  }

  /** The arcs between nodes reachable from start that are not back-edges. */
  ghost function ForwardArcs(edges: seq<Edge>, back: set<nat>, reached: set<string>): Arcs {
    set e | 0 <= e < |edges| && e !in back && edges[e].source in reached :: (edges[e].source, edges[e].target)
  }

  /** Reverse finishing order, counted from START. */
  ghost function RankOf(start: string, finish: map<string, nat>): (rank: map<string, nat>)
    requires start in finish && forall u :: u in finish ==> finish[u] <= finish[start]
  {
    map n | n in finish :: finish[start] - finish[n]
  }

  /** Reverse finishing order sorts the forward edges topologically, so they close no cycle. */
  lemma ForwardEdgesAreAcyclic(start: string, edges: seq<Edge>, back: set<nat>, finish: map<string, nat>)
    requires SearchResult(start, edges, back, finish) && NoSelfEdges(edges)
    ensures Ranked(ForwardArcs(edges, back, finish.Keys), RankOf(start, finish))
    ensures Acyclic(ForwardArcs(edges, back, finish.Keys))
  {
    hide Reaches;
    var arcs, rank := ForwardArcs(edges, back, finish.Keys), RankOf(start, finish);
    forall u, v | (u, v) in arcs
      ensures u in rank && v in rank && rank[u] < rank[v]
    {
      var e :| 0 <= e < |edges| && e !in back && edges[e].source == u && edges[e].target == v;
      assert finish[u] != finish[v];
    }
    RankedIsAcyclic(arcs, rank);
  }

  /** Every marked edge lies on a cycle of the workflow. */
  lemma BackEdgeClosesCycle(start: string, edges: seq<Edge>, back: set<nat>, finish: map<string, nat>, e: nat)
    requires SearchResult(start, edges, back, finish) && e in back
    ensures OnCycle(ArcsOf(edges), edges[e].source)
  {
    assert (edges[e].source, edges[e].target) in ArcsOf(edges);
  }

  /** A workflow has no back-edge exactly when no node reachable from START is on a cycle. */
  lemma NoBackEdgesIffAcyclic(start: string, edges: seq<Edge>, back: set<nat>, finish: map<string, nat>)
    requires SearchResult(start, edges, back, finish) && NoSelfEdges(edges)
    ensures back == {} <==> forall n :: Reaches(ArcsOf(edges), start, n) ==> !OnCycle(ArcsOf(edges), n)
  {
    if back == {} {
      forall n | Reaches(ArcsOf(edges), start, n)
        ensures !OnCycle(ArcsOf(edges), n)
      {
        if OnCycle(ArcsOf(edges), n) {
          ReachableCycleIsForward(start, edges, back, finish, n);
          ForwardEdgesAreAcyclic(start, edges, back, finish);
          assert false;
        }
      }
    } else {
      var e :| e in back;
      BackEdgeClosesCycle(start, edges, back, finish, e);
      assert edges[e].source in finish;
    }
  }

  /** Without back-edges a reachable cycle would consist of forward edges. */
  lemma ReachableCycleIsForward(start: string, edges: seq<Edge>, back: set<nat>, finish: map<string, nat>, n: string)
    requires SearchResult(start, edges, back, finish) && back == {}
    requires n in finish && OnCycle(ArcsOf(edges), n)
    ensures OnCycle(ForwardArcs(edges, back, finish.Keys), n)
  {
    var w :| (n, w) in ArcsOf(edges) && Reaches(ArcsOf(edges), w, n);
    var p :| WalkFromTo(ArcsOf(edges), w, n, p);
    WalkIsForward(start, edges, back, finish, p);
    assert WalkFromTo(ForwardArcs(edges, back, finish.Keys), w, n, p);
    assert (n, w) in ForwardArcs(edges, back, finish.Keys);
  }

  lemma {:induction false} WalkIsForward(start: string, edges: seq<Edge>, back: set<nat>, finish: map<string, nat>,
                                         p: seq<string>)
    requires SearchResult(start, edges, back, finish) && back == {}
    requires IsWalk(ArcsOf(edges), p) && p[0] in finish
    ensures IsWalk(ForwardArcs(edges, back, finish.Keys), p)
    decreases |p|
  {
    hide Reaches;
    if |p| > 1 {
      assert (p[0], p[1]) in ArcsOf(edges);
      assert IsWalk(ArcsOf(edges), p[1..]);
      WalkIsForward(start, edges, back, finish, p[1..]);
      forall i | 0 <= i < |p| - 1
        ensures (p[i], p[i + 1]) in ForwardArcs(edges, back, finish.Keys)
      {
        if i > 0 {
          assert p[i] == p[1..][i - 1] && p[i + 1] == p[1..][i];
        }
      }
    }
  }
}
