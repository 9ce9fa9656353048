/**
 Nodes on cycles: the iterative strongly-connected-components search with an explicit work stack
 and lowlinks, proved to return exactly the nodes that lie on a directed cycle.
 */
module Tarjan {
  import opened Workflow
  import opened Collections
  import opened Digraph
  import opened GraphAnalysis

  /**
   The search in progress, without its data structures. `idx` dates the visited nodes, `next` counts
   their examined successors; `open` are the visited nodes whose component is not complete, `live`
   those being explored, in the order of their dates.
   */
  datatype Search = Search(idx: map<string, nat>, low: map<string, nat>, next: map<string, nat>,
                           open: set<string>, live: set<string>, result: set<string>)

  ghost predicate Closed(s: Search, n: string) {
    n in s.idx && n !in s.open
  }

  ghost function ClosedNodes(s: Search): set<string> {
    s.idx.Keys - s.open
  }

  ghost predicate DatesOk(s: Search) {
    && (forall u :: u in s.live ==> u in s.open)
    && (forall u :: u in s.open ==> u in s.idx)
    && (forall u :: u in s.idx ==> u in s.low && u in s.next)
  }

  ghost predicate DatesDistinct(s: Search) {
    && (forall u, v :: u in s.idx && v in s.idx && s.idx[u] == s.idx[v] ==> u == v)
    && (forall u :: u in s.idx ==> s.idx[u] < |s.idx|)
  }

  /** Examined successors are visited; nodes no longer explored are fully examined. */
  ghost predicate ExaminedOk(out: Adjacency, s: Search)
    requires DatesOk(s)
  {
    && (forall u :: u in s.idx ==> s.next[u] <= |Successors(out, u)|)
    && (forall u, j :: u in s.idx && 0 <= j < s.next[u] && j < |Successors(out, u)| ==> Successors(out, u)[j] in s.idx)
    && (forall u :: u in s.idx && u !in s.live ==> s.next[u] == |Successors(out, u)|)
  }

  /** Closed nodes only lead to closed nodes, and are classified. */
  ghost predicate ClosedOk(arcs: Arcs, s: Search) {
    && (forall u, v :: Closed(s, u) && (u, v) in arcs ==> Closed(s, v))
    && (forall u :: u in s.result <==> Closed(s, u) && OnCycle(arcs, u))
  }

  /** x reaches a node under exploration that is not younger. */
  ghost predicate ReachesLive(arcs: Arcs, s: Search, x: string)
    requires DatesOk(s) && x in s.idx
  {
    exists p :: p in s.live && s.idx[p] <= s.idx[x] && Reaches(arcs, x, p)
  }

  ghost predicate ReachOk(arcs: Arcs, s: Search)
    requires DatesOk(s)
  {
    && (forall p, x :: p in s.live && x in s.open && s.idx[p] <= s.idx[x] ==> Reaches(arcs, p, x))
    && (forall x {:trigger ReachesLive(arcs, s, x)} :: x in s.open ==> ReachesLive(arcs, s, x))
  }

  /** x was discovered from p, and from no node explored later than p. */
  ghost predicate InZone(s: Search, p: string, x: string)
    requires DatesOk(s) && p in s.live
  {
    && x in s.open && s.idx[p] <= s.idx[x]
    && forall q :: q in s.live && s.idx[p] < s.idx[q] ==> s.idx[x] < s.idx[q]
  }

  ghost predicate LowReached(arcs: Arcs, s: Search, p: string)
    requires DatesOk(s) && p in s.live
  {
    exists y :: y in s.open && s.idx[y] == s.low[p] && Reaches(arcs, p, y)
  }

  /** Every examined edge from the zone of p into an open node ends at or above p's lowlink. */
  ghost predicate LowCovers(out: Adjacency, s: Search, p: string)
    requires DatesOk(s) && p in s.live
  {
    forall x, j :: InZone(s, p, x) && 0 <= j < s.next[x] && j < |Successors(out, x)| && Successors(out, x)[j] in s.open
                   ==> s.low[p] <= s.idx[Successors(out, x)[j]]
  }

  ghost predicate LowsOk(arcs: Arcs, out: Adjacency, s: Search)
    requires DatesOk(s)
  {
    && (forall p :: p in s.live ==> s.low[p] <= s.idx[p])
    && (forall p {:trigger LowReached(arcs, s, p)} :: p in s.live ==> LowReached(arcs, s, p))
    && (forall p {:trigger LowCovers(out, s, p)} :: p in s.live ==> LowCovers(out, s, p))
  }

  ghost predicate Inv(arcs: Arcs, out: Adjacency, s: Search) {
    DatesOk(s) && DatesDistinct(s) && ExaminedOk(out, s) && ClosedOk(arcs, s) && ReachOk(arcs, s)
        && LowsOk(arcs, out, s)
  }

  /** u is the node explored last. */
  ghost predicate IsTop(s: Search, u: string) {
    DatesOk(s) && u in s.live && forall p :: p in s.live ==> s.idx[p] <= s.idx[u]
  }

  /** v is discovered as a root. */
  ghost function Rooted(s: Search, v: string): Search {
    Search(s.idx[v := |s.idx|], s.low[v := |s.idx|], s.next[v := 0], s.open + {v}, s.live + {v}, s.result)
  }

  /** The top has examined one more successor, and takes its date into account if it is open. */
  ghost function Examined(s: Search, u: string, y: string): Search
    requires u in s.next && u in s.low && y in s.idx
  {
    s.(next := s.next[u := s.next[u] + 1],
       low := if y in s.open && s.idx[y] < s.low[u] then s.low[u := s.idx[y]] else s.low)
  }

  lemma RootedDates(s: Search, v: string)
    requires DatesOk(s) && v !in s.idx
    ensures DatesOk(Rooted(s, v))
  {
  }

  lemma RootedDistinct(s: Search, v: string)
    requires DatesDistinct(s) && v !in s.idx
    ensures DatesDistinct(Rooted(s, v))
  {
    var s' := Rooted(s, v);
    assert s'.idx.Keys == s.idx.Keys + {v};
    assert |s'.idx| == |s.idx| + 1;
  }

  lemma RootedExamined(out: Adjacency, s: Search, v: string)
    requires DatesOk(s) && ExaminedOk(out, s) && v !in s.idx && DatesOk(Rooted(s, v))
    ensures ExaminedOk(out, Rooted(s, v))
  {
  }

  lemma RootedClosed(arcs: Arcs, s: Search, v: string)
    requires ClosedOk(arcs, s) && v !in s.idx
    ensures ClosedOk(arcs, Rooted(s, v))
  {
    hide OnCycle;
    assert forall u :: Closed(Rooted(s, v), u) <==> Closed(s, u);
  }

  /** A new top: every explored node must reach it. */
  lemma RootedReach(arcs: Arcs, s: Search, v: string)
    requires DatesOk(s) && ReachOk(arcs, s) && v !in s.idx && DatesOk(Rooted(s, v))
    requires forall x :: x in s.open ==> s.idx[x] < |s.idx|
    requires forall p :: p in s.live ==> Reaches(arcs, p, v)
    ensures ReachOk(arcs, Rooted(s, v))
  {
    hide Reaches;
    var s' := Rooted(s, v);
    ReachesSelf(arcs, v);
    RootedReached(arcs, s, v);
    forall x | x in s'.open
      ensures ReachesLive(arcs, s', x)
    {
      if x != v {
        assert ReachesLive(arcs, s, x);
        var p :| p in s.live && s.idx[p] <= s.idx[x] && Reaches(arcs, x, p);
        assert p in s'.live && s'.idx[p] <= s'.idx[x];
      }
    }
  }

  lemma RootedReached(arcs: Arcs, s: Search, v: string)
    requires DatesOk(s) && v !in s.idx && DatesOk(Rooted(s, v))
    requires forall p, x :: p in s.live && x in s.open && s.idx[p] <= s.idx[x] ==> Reaches(arcs, p, x)
    requires forall x :: x in s.open ==> s.idx[x] < |s.idx|
    requires forall p :: p in s.live ==> Reaches(arcs, p, v)
    ensures var s' := Rooted(s, v);
            forall p, x :: p in s'.live && x in s'.open && s'.idx[p] <= s'.idx[x] ==> Reaches(arcs, p, x)
  {
    hide Reaches;
    ReachesSelf(arcs, v);
    var s' := Rooted(s, v);
    forall p, x | p in s'.live && x in s'.open && s'.idx[p] <= s'.idx[x]
      ensures Reaches(arcs, p, x)
    {
      assert x == v || s.idx[x] < s'.idx[v];
    }
  }

  lemma RootedLows(arcs: Arcs, out: Adjacency, s: Search, v: string)
    requires DatesOk(s) && LowsOk(arcs, out, s) && v !in s.idx && DatesOk(Rooted(s, v))
    requires forall x :: x in s.open ==> s.idx[x] < |s.idx|
    ensures LowsOk(arcs, out, Rooted(s, v))
  {
    hide Reaches;
    var s' := Rooted(s, v);
    ReachesSelf(arcs, v);
    forall p | p in s'.live
      ensures s'.low[p] <= s'.idx[p] && LowReached(arcs, s', p) && LowCovers(out, s', p)
    {
      if p == v {
        assert v in s'.open && s'.idx[v] == s'.low[p];
        assert forall x :: InZone(s', p, x) ==> x == v;
      } else {
        assert LowReached(arcs, s, p) && LowCovers(out, s, p);
        RootedLow(arcs, out, s, v, p);
      }
    }
  }

  lemma RootedLow(arcs: Arcs, out: Adjacency, s: Search, v: string, p: string)
    requires DatesOk(s) && v !in s.idx && DatesOk(Rooted(s, v))
    requires forall x :: x in s.open ==> s.idx[x] < |s.idx|
    requires p in s.live && LowReached(arcs, s, p) && LowCovers(out, s, p)
    ensures s.low[p] <= s.idx[p] ==> LowReached(arcs, Rooted(s, v), p) && LowCovers(out, Rooted(s, v), p)
  {
    hide Reaches;
    var s' := Rooted(s, v);
    var y :| y in s.open && s.idx[y] == s.low[p] && Reaches(arcs, p, y);
    assert y in s'.open && s'.idx[y] == s'.low[p];
    if s.low[p] <= s.idx[p] {
      forall x, j | InZone(s', p, x) && 0 <= j < s'.next[x] && j < |Successors(out, x)|
          && Successors(out, x)[j] in s'.open
        ensures s'.low[p] <= s'.idx[Successors(out, x)[j]]
      {
        assert v in s'.live && s'.idx[p] < s'.idx[v];
        assert x != v;
        assert InZone(s, p, x);
      }
    }
  }

  /** Discovering a node, as a root or below the top. */
  lemma RootedKeeps(arcs: Arcs, out: Adjacency, s: Search, v: string)
    requires Inv(arcs, out, s) && v !in s.idx
    requires forall p :: p in s.live ==> Reaches(arcs, p, v)
    ensures Inv(arcs, out, Rooted(s, v))
  {
    RootedDates(s, v);
    RootedDistinct(s, v);
    RootedExamined(out, s, v);
    RootedClosed(arcs, s, v);
    RootedReach(arcs, s, v);
    RootedLows(arcs, out, s, v);
  }

  ghost predicate CanExamine(arcs: Arcs, out: Adjacency, s: Search, u: string) {
    Inv(arcs, out, s) && Represents(out, arcs) && IsTop(s, u) && s.next[u] < |Successors(out, u)|
  }

  /** Reachability only depends on dates and on who is open or explored. */
  lemma SameDatesReach(arcs: Arcs, s: Search, s': Search)
    requires DatesOk(s) && DatesOk(s') && ReachOk(arcs, s)
    requires s'.idx == s.idx && s'.open == s.open && s'.live == s.live
    ensures ReachOk(arcs, s')
  {
    hide Reaches;
    forall x | x in s'.open ensures ReachesLive(arcs, s', x) {
      assert ReachesLive(arcs, s, x);
    }
  }

  lemma SameDatesClosed(arcs: Arcs, s: Search, s': Search)
    requires ClosedOk(arcs, s) && s'.idx == s.idx && s'.open == s.open && s'.result == s.result
    ensures ClosedOk(arcs, s')
  {
    hide OnCycle;
    assert forall n :: Closed(s', n) <==> Closed(s, n);
  }

  lemma ExaminedExamined(arcs: Arcs, out: Adjacency, s: Search, u: string, y: string)
    requires DatesOk(s) && ExaminedOk(out, s) && IsTop(s, u) && s.next[u] < |Successors(out, u)|
    requires y == Successors(out, u)[s.next[u]] && y in s.idx
    ensures DatesOk(Examined(s, u, y)) && ExaminedOk(out, Examined(s, u, y))
  {
    var s' := Examined(s, u, y);
    assert DatesOk(s');
    forall n | n in s'.idx
      ensures s'.next[n] <= |Successors(out, n)| && (n !in s'.live ==> s'.next[n] == |Successors(out, n)|)
    {
    }
    forall n, j | n in s'.idx && 0 <= j < s'.next[n] && j < |Successors(out, n)|
      ensures Successors(out, n)[j] in s'.idx
    {
    }
  }

  lemma ExaminedLows(arcs: Arcs, out: Adjacency, s: Search, u: string, y: string)
    requires CanExamine(arcs, out, s, u) && y == Successors(out, u)[s.next[u]] && y in s.idx
             && DatesOk(Examined(s, u, y))
    ensures LowsOk(arcs, out, Examined(s, u, y))
  {
    var s' := Examined(s, u, y);
    hide LowReached, LowCovers, Inv;
    forall p | p in s'.live
      ensures s'.low[p] <= s'.idx[p] && LowReached(arcs, s', p) && LowCovers(out, s', p)
    {
      ExaminedLow(arcs, out, s, u, y, p);
    }
  }

  /** Examining an edge to a visited node. */
  lemma ExaminedKeeps(arcs: Arcs, out: Adjacency, s: Search, u: string, y: string)
    requires CanExamine(arcs, out, s, u) && y == Successors(out, u)[s.next[u]] && y in s.idx
    ensures Inv(arcs, out, Examined(s, u, y))
  {
    hide ReachOk, ClosedOk, DatesDistinct, ExaminedOk, LowsOk;
    var s' := Examined(s, u, y);
    ExaminedExamined(arcs, out, s, u, y);
    ExaminedLows(arcs, out, s, u, y);
    SameDatesReach(arcs, s, s');
    SameDatesClosed(arcs, s, s');
    SameDatesDistinct(s, s');
  }

  lemma SameDatesDistinct(s: Search, s': Search)
    requires DatesDistinct(s) && s'.idx == s.idx
    ensures DatesDistinct(s')
  {
  }

  lemma ExaminedLow(arcs: Arcs, out: Adjacency, s: Search, u: string, y: string, p: string)
    requires CanExamine(arcs, out, s, u) && y == Successors(out, u)[s.next[u]] && y in s.idx
    requires p in s.live && DatesOk(Examined(s, u, y))
    ensures var s' := Examined(s, u, y); s'.low[p] <= s'.idx[p] && LowReached(arcs, s', p) && LowCovers(out, s', p)
  {
    hide Reaches, ClosedOk, ReachOk;
    var s' := Examined(s, u, y);
    assert s.low[p] <= s.idx[p] && LowReached(arcs, s, p) && LowCovers(out, s, p);
    if s'.low[p] != s.low[p] {
      assert y in Successors(out, u);
      ReachesArc(arcs, u, y);
      assert y in s'.open && s'.idx[y] == s'.low[p];
    } else {
      var z :| z in s.open && s.idx[z] == s.low[p] && Reaches(arcs, p, z);
      assert z in s'.open && s'.idx[z] == s'.low[p];
    }
    forall x, j | InZone(s', p, x) && 0 <= j < s'.next[x] && j < |Successors(out, x)|
        && Successors(out, x)[j] in s'.open
      ensures s'.low[p] <= s'.idx[Successors(out, x)[j]]
    {
      assert InZone(s, p, x);
      if x == u && j == s.next[u] {
        assert p == u;
      }
    }
  }

  /** p is the parent of the top u: the node explored last before it, at the edge that led to u. */
  ghost predicate IsParent(out: Adjacency, s: Search, p: string, u: string) {
    && DatesOk(s) && p in s.live && p != u
    && (forall q :: q in s.live && q != u ==> s.idx[q] <= s.idx[p])
    && s.next[p] < |Successors(out, p)| && Successors(out, p)[s.next[p]] == u
  }

  /** u is fully examined. */
  ghost predicate CanFinish(arcs: Arcs, out: Adjacency, s: Search, u: string) {
    Inv(arcs, out, s) && Represents(out, arcs) && IsTop(s, u) && s.next[u] == |Successors(out, u)|
  }

  /** The exploration of u returns to its parent p, which inherits the lowlink. */
  ghost function Returned(s: Search, u: string, p: string): Search
    requires u in s.low && p in s.low && p in s.next
  {
    s.(live := s.live - {u}, low := if s.low[u] < s.low[p] then s.low[p := s.low[u]] else s.low,
       next := s.next[p := s.next[p] + 1])
  }

  /** A node whose lowlink is below its date reaches an older node under exploration. */
  lemma ReachesOlder(arcs: Arcs, out: Adjacency, s: Search, u: string) returns (p: string)
    requires CanFinish(arcs, out, s, u) && s.low[u] < s.idx[u]
    ensures p in s.live && p != u && s.idx[p] < s.idx[u] && Reaches(arcs, u, p)
  {
    hide Reaches, ClosedOk, ExaminedOk, DatesDistinct;
    assert LowReached(arcs, s, u);
    var y :| y in s.open && s.idx[y] == s.low[u] && Reaches(arcs, u, y);
    assert ReachesLive(arcs, s, y);
    p :| p in s.live && s.idx[p] <= s.idx[y] && Reaches(arcs, y, p);
    ReachesTrans(arcs, u, y, p);
  }

  lemma ReturnedReach(arcs: Arcs, out: Adjacency, s: Search, u: string, p: string)
    requires CanFinish(arcs, out, s, u) && IsParent(out, s, p, u) && s.low[u] < s.idx[u] && DatesOk(Returned(s, u, p))
    ensures ReachOk(arcs, Returned(s, u, p))
  {
    hide Reaches, ReachesLive, ClosedOk, ExaminedOk, DatesDistinct, LowsOk;
    var older := ReachesOlder(arcs, out, s, u);
    var s' := Returned(s, u, p);
    forall x | x in s'.open ensures ReachesLive(arcs, s', x) {
      StillReachesLive(arcs, s, s', u, older, x);
    }
  }

  lemma StillReachesLive(arcs: Arcs, s: Search, s': Search, u: string, older: string, x: string)
    requires DatesOk(s) && DatesOk(s') && s'.idx == s.idx && s'.live == s.live - {u}
    requires u in s.live && older in s.live && older != u && s.idx[older] < s.idx[u] && Reaches(arcs, u, older)
    requires x in s.open && ReachesLive(arcs, s, x)
    ensures ReachesLive(arcs, s', x)
  {
    hide Reaches;
    var q :| q in s.live && s.idx[q] <= s.idx[x] && Reaches(arcs, x, q);
    if q == u {
      ReachesTrans(arcs, x, u, older);
      assert older in s'.live;
    } else {
      assert q in s'.live;
    }
  }

  lemma ReturnedLowReached(arcs: Arcs, out: Adjacency, s: Search, u: string, p: string, q: string)
    requires DatesOk(s) && Represents(out, arcs) && IsParent(out, s, p, u) && u in s.live && DatesOk(Returned(s, u, p))
    requires q in s.live && q != u && LowReached(arcs, s, q) && LowReached(arcs, s, u)
    ensures LowReached(arcs, Returned(s, u, p), q)
  {
    hide Reaches;
    var s' := Returned(s, u, p);
    var y :| y in s.open && s.idx[y] == s.low[q] && Reaches(arcs, q, y);
    var z :| z in s.open && s.idx[z] == s.low[u] && Reaches(arcs, u, z);
    if q == p && s.low[u] < s.low[p] {
      assert u in Successors(out, p);
      ArcThenReaches(arcs, p, u, z);
      assert z in s'.open && s'.idx[z] == s'.low[q];
    } else {
      assert y in s'.open && s'.idx[y] == s'.low[q];
    }
  }

  lemma ReturnedLowCovers(out: Adjacency, s: Search, u: string, p: string, q: string)
    requires DatesOk(s) && DatesDistinct(s) && ExaminedOk(out, s) && IsTop(s, u) && IsParent(out, s, p, u)
             && DatesOk(Returned(s, u, p))
    requires s.low[u] < s.idx[u] && q in s.live && q != u && LowCovers(out, s, q) && LowCovers(out, s, u)
    ensures LowCovers(out, Returned(s, u, p), q)
  {
    var s' := Returned(s, u, p);
    forall x, j | InZone(s', q, x) && 0 <= j < s'.next[x] && j < |Successors(out, x)|
        && Successors(out, x)[j] in s'.open
      ensures s'.low[q] <= s'.idx[Successors(out, x)[j]]
    {
      if s.idx[u] <= s.idx[x] {
        ZoneGrows(s, u, p, q, x);
      } else {
        ZoneStays(s, u, p, q, x);
      }
      hide DatesDistinct, InZone;
      if x == p && j == s.next[p] {
        assert Successors(out, x)[j] == u;
        ParentZone(s, u, p, q);
      }
    }
  }

  lemma ParentZone(s: Search, u: string, p: string, q: string)
    requires DatesDistinct(s) && IsTop(s, u) && p in s.low && p in s.next && p in s.live && p != u
             && DatesOk(Returned(s, u, p))
    requires forall r :: r in s.live && r != u ==> s.idx[r] <= s.idx[p]
    requires q in s.live && q != u && InZone(Returned(s, u, p), q, p)
    ensures q == p
  {
    assert p in Returned(s, u, p).live;
  }

  lemma ReturnedLow(arcs: Arcs, out: Adjacency, s: Search, u: string, p: string, q: string)
    requires CanFinish(arcs, out, s, u) && IsParent(out, s, p, u) && s.low[u] < s.idx[u] && DatesOk(Returned(s, u, p))
    requires q in s.live && q != u
    ensures var s' := Returned(s, u, p); s'.low[q] <= s'.idx[q] && LowReached(arcs, s', q) && LowCovers(out, s', q)
  {
    hide Reaches, ClosedOk, DatesDistinct, ReachOk, ExaminedOk, LowReached, LowCovers, Represents;
    assert LowReached(arcs, s, q) && LowReached(arcs, s, u) && LowCovers(out, s, q) && LowCovers(out, s, u);
    assert s.idx[q] <= s.idx[p];
    ReturnedLowReached(arcs, out, s, u, p, q);
    ReturnedLowCovers(out, s, u, p, q);
    LowBelowDate(s, u, p);
  }

  lemma LowBelowDate(s: Search, u: string, p: string)
    requires DatesOk(s) && u in s.live && p in s.live && p != u && forall q :: q in s.live ==> s.low[q] <= s.idx[q]
    ensures forall q :: q in s.live ==> Returned(s, u, p).low[q] <= s.idx[q]
  {
  }

  /** With u gone, its zone falls to its parent, and to nobody else. */
  lemma ZoneGrows(s: Search, u: string, p: string, q: string, x: string)
    requires IsTop(s, u) && DatesDistinct(s) && p in s.low && p in s.next && DatesOk(Returned(s, u, p)) && p in s.live
             && p != u
    requires (forall r :: r in s.live && r != u ==> s.idx[r] <= s.idx[p])
    requires q in s.live && q != u && InZone(Returned(s, u, p), q, x) && s.idx[u] <= s.idx[x]
    ensures q == p && InZone(s, u, x)
  {
    assert s.idx[q] <= s.idx[p] <= s.idx[x];
    assert p in Returned(s, u, p).live;
    assert s.idx[p] == s.idx[q];
  }

  lemma ZoneStays(s: Search, u: string, p: string, q: string, x: string)
    requires IsTop(s, u) && p in s.low && p in s.next && DatesOk(Returned(s, u, p))
    requires q in s.live && q != u && InZone(Returned(s, u, p), q, x) && s.idx[x] < s.idx[u]
    ensures InZone(s, q, x)
  {
    forall r | r in s.live && s.idx[q] < s.idx[r]
      ensures s.idx[x] < s.idx[r]
    {
      assert r != u ==> r in Returned(s, u, p).live;
    }
  }

  lemma ReturnedExamined(out: Adjacency, s: Search, u: string, p: string)
    requires DatesOk(s) && ExaminedOk(out, s) && IsTop(s, u) && s.next[u] == |Successors(out, u)|
             && IsParent(out, s, p, u)
    ensures DatesOk(Returned(s, u, p)) && ExaminedOk(out, Returned(s, u, p))
  {
    var s' := Returned(s, u, p);
    assert DatesOk(s');
    forall n | n in s'.idx
      ensures s'.next[n] <= |Successors(out, n)| && (n !in s'.live ==> s'.next[n] == |Successors(out, n)|)
    {
      assert s'.next[n] == if n == p then s.next[p] + 1 else s.next[n];
      assert n !in s'.live ==> n == u || n !in s.live;
    }
    forall n, j | n in s'.idx && 0 <= j < s'.next[n] && j < |Successors(out, n)|
      ensures Successors(out, n)[j] in s'.idx
    {
      assert j < s.next[n] || (n == p && j == s.next[p] && Successors(out, p)[j] == u);
    }
  }

  lemma ReturnedLows(arcs: Arcs, out: Adjacency, s: Search, u: string, p: string)
    requires CanFinish(arcs, out, s, u) && IsParent(out, s, p, u) && s.low[u] < s.idx[u] && DatesOk(Returned(s, u, p))
    ensures LowsOk(arcs, out, Returned(s, u, p))
  {
    hide LowReached, LowCovers, ReachOk, ClosedOk, ExaminedOk;
    var s' := Returned(s, u, p);
    forall q | q in s'.live
      ensures s'.low[q] <= s'.idx[q] && LowReached(arcs, s', q) && LowCovers(out, s', q)
    {
      ReturnedLow(arcs, out, s, u, p, q);
    }
  }

  /** Finishing a node whose component is not complete yet. */
  lemma ReturnedKeeps(arcs: Arcs, out: Adjacency, s: Search, u: string, p: string)
    requires CanFinish(arcs, out, s, u) && IsParent(out, s, p, u) && s.low[u] < s.idx[u]
    ensures Inv(arcs, out, Returned(s, u, p))
  {
    hide ReachOk, ClosedOk, DatesDistinct, ExaminedOk, LowsOk;
    var s' := Returned(s, u, p);
    ReturnedExamined(out, s, u, p);
    ReturnedReach(arcs, out, s, u, p);
    ReturnedLows(arcs, out, s, u, p);
    SameDatesClosed(arcs, s, s');
    SameDatesDistinct(s, s');
  }

  /** The open nodes at least as young as u. */
  ghost function Component(s: Search, u: string): set<string>
    requires DatesOk(s) && u in s.idx
  {
    set x | x in s.open && s.idx[u] <= s.idx[x]
  }

  /** The component of u is complete: it is closed and classified. */
  ghost function Completed(s: Search, u: string): Search
    requires DatesOk(s) && u in s.idx
  {
    var x := Component(s, u);
    s.(open := s.open - x, live := s.live - {u}, result := if |x| > 1 then s.result + x else s.result)
  }

  /** The component of a root: everything in it reaches u and is reached from u. */
  lemma ComponentIsConnected(arcs: Arcs, out: Adjacency, s: Search, u: string, x: string)
    requires CanFinish(arcs, out, s, u) && x in Component(s, u)
    ensures Reaches(arcs, u, x) && Reaches(arcs, x, u)
  {
    hide Reaches, ClosedOk, ExaminedOk, DatesDistinct, LowsOk;
    assert ReachesLive(arcs, s, x);
    var p :| p in s.live && s.idx[p] <= s.idx[x] && Reaches(arcs, x, p);
    assert Reaches(arcs, p, u);
    ReachesTrans(arcs, x, p, u);
  }

  /** No edge leaves the component of a root but into closed nodes. */
  lemma ComponentIsClosed(arcs: Arcs, out: Adjacency, s: Search, u: string, x: string, y: string)
    requires CanFinish(arcs, out, s, u) && s.low[u] == s.idx[u] && x in Component(s, u) && (x, y) in arcs
    ensures y in Component(s, u) || Closed(s, y)
  {
    hide Reaches, ClosedOk, ReachOk;
    assert LowCovers(out, s, u);
    assert InZone(s, u, x);
    if x in s.live {
      assert s.idx[x] == s.idx[u];
    }
    assert y in Successors(out, x);
    var j :| 0 <= j < |Successors(out, x)| && Successors(out, x)[j] == y;
    assert j < s.next[x];
  }

  lemma CompletedClosed(arcs: Arcs, out: Adjacency, s: Search, u: string)
    requires CanFinish(arcs, out, s, u) && s.low[u] == s.idx[u] && NoSelfLoops(arcs)
    ensures ClosedOk(arcs, Completed(s, u))
  {
    var s', comp := Completed(s, u), Component(s, u);
    forall n ensures Closed(s', n) <==> Closed(s, n) || n in comp {
    }
    forall x, y | Closed(s', x) && (x, y) in arcs
      ensures Closed(s', y)
    {
      if x in comp {
        ComponentIsClosed(arcs, out, s, u, x, y);
      }
    }
    forall n | n in comp
      ensures n in s'.result <==> OnCycle(arcs, n)
    {
      ComponentOnCycle(arcs, out, s, u, n);
    }
    hide OnCycle;
    forall n ensures n in s'.result <==> Closed(s', n) && OnCycle(arcs, n) {
    }
  }

  lemma ComponentOnCycle(arcs: Arcs, out: Adjacency, s: Search, u: string, n: string)
    requires CanFinish(arcs, out, s, u) && s.low[u] == s.idx[u] && NoSelfLoops(arcs) && n in Component(s, u)
    ensures OnCycle(arcs, n) <==> |Component(s, u)| > 1
  {
    var comp := Component(s, u);
    TwoElements(comp);
    hide Reaches, ExaminedOk, DatesDistinct, LowsOk, ReachOk;
    if |comp| > 1 {
      var m :| m in comp && m != n;
      ComponentIsConnected(arcs, out, s, u, n);
      ComponentIsConnected(arcs, out, s, u, m);
      ReachesTrans(arcs, n, u, m);
      ReachesTrans(arcs, m, u, n);
      MutualReachIsCycle(arcs, n, m);
    } else if OnCycle(arcs, n) {
      var v := CycleHasPartner(arcs, n);
      LeavingIsForGood(arcs, out, s, u, n, v);
      assert v in comp || Closed(s, v);
      if Closed(s, v) {
        ReachesStaysIn(arcs, ClosedNodes(s), v, n);
      }
    }
  }

  lemma LeavingIsForGood(arcs: Arcs, out: Adjacency, s: Search, u: string, x: string, y: string)
    requires CanFinish(arcs, out, s, u) && s.low[u] == s.idx[u] && x in Component(s, u) && Reaches(arcs, x, y)
    ensures y in Component(s, u) || Closed(s, y)
  {
    var all := Component(s, u) + ClosedNodes(s);
    forall a, b | (a, b) in arcs && a in all
      ensures b in all
    {
      if a in Component(s, u) {
        ComponentIsClosed(arcs, out, s, u, a, b);
      }
    }
    ReachesStaysIn(arcs, all, x, y);
  }

  /** What remains open after a component is complete. */
  lemma CompletedDates(arcs: Arcs, out: Adjacency, s: Search, u: string)
    requires CanFinish(arcs, out, s, u)
    ensures var s' := Completed(s, u);
            && DatesOk(s') && ExaminedOk(out, s')
            && (forall x :: x in s'.open <==> x in s.open && s.idx[x] < s.idx[u])
            && (forall p :: p in s'.live ==> s.idx[p] < s.idx[u])
  {
    hide ReachOk, ClosedOk, LowsOk;
    var s' := Completed(s, u);
    forall p | p in s'.live
      ensures s.idx[p] < s.idx[u]
    {
      assert s.idx[p] <= s.idx[u];
    }
  }

  lemma CompletedReach(arcs: Arcs, out: Adjacency, s: Search, u: string)
    requires CanFinish(arcs, out, s, u) && DatesOk(Completed(s, u))
    ensures ReachOk(arcs, Completed(s, u))
  {
    hide Reaches, ReachesLive, ClosedOk, ExaminedOk, DatesDistinct, LowsOk;
    var s' := Completed(s, u);
    CompletedDates(arcs, out, s, u);
    forall x | x in s'.open ensures ReachesLive(arcs, s', x) {
      OlderStillReachesLive(arcs, s, s', u, x);
    }
  }

  lemma OlderStillReachesLive(arcs: Arcs, s: Search, s': Search, u: string, x: string)
    requires DatesOk(s) && DatesOk(s') && s'.idx == s.idx && s'.live == s.live - {u} && u in s.live
    requires x in s.open && s.idx[x] < s.idx[u] && ReachesLive(arcs, s, x)
    ensures ReachesLive(arcs, s', x)
  {
    hide Reaches;
    var q :| q in s.live && s.idx[q] <= s.idx[x] && Reaches(arcs, x, q);
    assert q in s'.live;
  }

  lemma CompletedLow(arcs: Arcs, out: Adjacency, s: Search, u: string, p: string)
    requires CanFinish(arcs, out, s, u) && DatesOk(Completed(s, u)) && p in Completed(s, u).live
    ensures var s' := Completed(s, u); LowReached(arcs, s', p) && LowCovers(out, s', p)
  {
    hide Reaches, ClosedOk, ExaminedOk, DatesDistinct, ReachOk, LowReached, LowCovers;
    CompletedDates(arcs, out, s, u);
    assert LowReached(arcs, s, p) && LowCovers(out, s, p);
    CompletedLowReached(arcs, out, s, u, p);
    CompletedLowCovers(arcs, out, s, u, p);
  }

  lemma CompletedLowReached(arcs: Arcs, out: Adjacency, s: Search, u: string, p: string)
    requires CanFinish(arcs, out, s, u) && DatesOk(Completed(s, u)) && p in Completed(s, u).live
             && LowReached(arcs, s, p)
    ensures LowReached(arcs, Completed(s, u), p)
  {
    hide Reaches, ClosedOk, ExaminedOk, DatesDistinct, ReachOk, LowCovers;
    CompletedDates(arcs, out, s, u);
    var y :| y in s.open && s.idx[y] == s.low[p] && Reaches(arcs, p, y);
    assert y in Completed(s, u).open;
  }

  lemma CompletedLowCovers(arcs: Arcs, out: Adjacency, s: Search, u: string, p: string)
    requires CanFinish(arcs, out, s, u) && DatesOk(Completed(s, u)) && p in Completed(s, u).live && LowCovers(out, s, p)
    ensures LowCovers(out, Completed(s, u), p)
  {
    hide Reaches, ClosedOk, ExaminedOk, DatesDistinct, ReachOk, LowReached, LowsOk;
    CompletedDates(arcs, out, s, u);
    var s' := Completed(s, u);
    forall x, j | InZone(s', p, x) && 0 <= j < s'.next[x] && j < |Successors(out, x)|
        && Successors(out, x)[j] in s'.open
      ensures s'.low[p] <= s'.idx[Successors(out, x)[j]]
    {
      forall r | r in s.live && s.idx[p] < s.idx[r]
        ensures s.idx[x] < s.idx[r]
      {
        assert r != u ==> r in s'.live;
      }
      assert InZone(s, p, x);
    }
  }

  lemma CompletedLows(arcs: Arcs, out: Adjacency, s: Search, u: string)
    requires CanFinish(arcs, out, s, u) && DatesOk(Completed(s, u))
    ensures LowsOk(arcs, out, Completed(s, u))
  {
    hide LowReached, LowCovers, ReachOk, ClosedOk, ExaminedOk, DatesDistinct;
    var s' := Completed(s, u);
    forall p | p in s'.live
      ensures s'.low[p] <= s'.idx[p] && LowReached(arcs, s', p) && LowCovers(out, s', p)
    {
      CompletedLow(arcs, out, s, u, p);
    }
  }

  /** Finishing the root of a component. */
  lemma CompletedKeeps(arcs: Arcs, out: Adjacency, s: Search, u: string)
    requires CanFinish(arcs, out, s, u) && s.low[u] == s.idx[u] && NoSelfLoops(arcs)
    ensures Inv(arcs, out, Completed(s, u))
  {
    hide ReachOk, ClosedOk, DatesDistinct, LowsOk;
    CompletedDates(arcs, out, s, u);
    CompletedClosed(arcs, out, s, u);
    CompletedReach(arcs, out, s, u);
    CompletedLows(arcs, out, s, u);
    SameDatesDistinct(s, Completed(s, u));
  }

  /** The parent of a completed root moves on past the edge that led to it. */
  lemma SkipKeeps(arcs: Arcs, out: Adjacency, s: Search, u: string, p: string)
    requires CanFinish(arcs, out, s, u) && IsParent(out, s, p, u) && s.low[u] == s.idx[u] && NoSelfLoops(arcs)
    ensures Inv(arcs, out, Completed(s, u)) && CanExamine(arcs, out, Completed(s, u), p)
    ensures Completed(s, u).next[p] == s.next[p] && u !in Completed(s, u).open
  {
    hide ReachOk, ClosedOk, DatesDistinct, LowsOk;
    CompletedKeeps(arcs, out, s, u);
    CompletedDates(arcs, out, s, u);
  }

  /** An entry of the explicit call stack: a node and the position in its successor list. */
  datatype Frame = Frame(node: string, pi: nat)

  /** The stack lists the open nodes by date, and the flags mark them. */
  ghost predicate StackLists(s: Search, stack: seq<string>, onStack: map<string, bool>)
    requires DatesOk(s)
  {
    && (forall n :: n in s.open <==> n in stack)
    && (forall i, j :: 0 <= i < j < |stack| && stack[i] in s.idx && stack[j] in s.idx
                       ==> s.idx[stack[i]] < s.idx[stack[j]])
    && (forall n :: n in s.open <==> n in onStack && onStack[n])
  }

  /** The frames list the explored nodes by date; all but the last have moved past the edge to the next frame. */
  ghost predicate FramesList(out: Adjacency, s: Search, work: seq<Frame>)
    requires DatesOk(s)
  {
    && (forall k :: 0 <= k < |work| ==> work[k].node in s.live)
    && (forall n :: n in s.live ==> InFrames(work, n))
    && (forall j, k :: 0 <= j < k < |work| && work[j].node in s.idx && work[k].node in s.idx
                       ==> s.idx[work[j].node] < s.idx[work[k].node])
    && (forall k :: 0 <= k < |work| - 1 ==> LedTo(out, s, work[k], work[k + 1].node))
  }

  ghost predicate InFrames(work: seq<Frame>, n: string) {
    exists k :: 0 <= k < |work| && work[k].node == n
  }

  /** The frame's last examined edge led to n, and is not counted yet. */
  ghost predicate LedTo(out: Adjacency, s: Search, f: Frame, n: string) {
    && f.node in s.next && f.pi == s.next[f.node] + 1
    && s.next[f.node] < |Successors(out, f.node)| && Successors(out, f.node)[s.next[f.node]] == n
  }

  /** A settled state: the last frame's node has been visited. */
  ghost predicate Settled(arcs: Arcs, out: Adjacency, s: Search, stack: seq<string>, onStack: map<string, bool>,
                          work: seq<Frame>)
  {
    && Inv(arcs, out, s) && StackLists(s, stack, onStack) && FramesList(out, s, work)
    && (work != [] ==> work[|work| - 1].node in s.next && work[|work| - 1].pi == s.next[work[|work| - 1].node])
  }

  /** A state whose last frame is a node still to be visited, below the frames before it. */
  ghost predicate Discovering(arcs: Arcs, out: Adjacency, s: Search, stack: seq<string>, onStack: map<string, bool>,
                              work: seq<Frame>)
  {
    && Inv(arcs, out, s) && StackLists(s, stack, onStack) && work != []
    && work[|work| - 1].pi == 0 && work[|work| - 1].node !in s.idx
    && FramesList(out, s, work[..|work| - 1])
    && (|work| > 1 ==> LedTo(out, s, work[|work| - 2], work[|work| - 1].node))
  }

  lemma TopOfFrames(arcs: Arcs, out: Adjacency, s: Search, work: seq<Frame>)
    requires DatesOk(s) && FramesList(out, s, work) && work != []
    ensures IsTop(s, work[|work| - 1].node)
    ensures |work| > 1 && s.next[work[|work| - 1].node] <= |Successors(out, work[|work| - 1].node)|
            ==> IsParent(out, s, work[|work| - 2].node, work[|work| - 1].node)
  {
    var top := |work| - 1;
    forall p | p in s.live
      ensures s.idx[p] <= s.idx[work[top].node]
      ensures |work| > 1 && p != work[top].node ==> s.idx[p] <= s.idx[work[top - 1].node]
    {
      assert InFrames(work, p);
      var k :| 0 <= k < |work| && work[k].node == p;
      assert k < top ==> s.idx[work[k].node] < s.idx[work[top].node];
      assert k < top - 1 ==> s.idx[work[k].node] < s.idx[work[top - 1].node];
    }
    if |work| > 1 {
      assert LedTo(out, s, work[top - 1], work[top].node);
      assert s.idx[work[top - 1].node] < s.idx[work[top].node];
    }
  }

  /** A lone explored node is the root of its component. */
  lemma LoneIsRoot(arcs: Arcs, out: Adjacency, s: Search, work: seq<Frame>)
    requires FramesListOk(out, s, work) && |work| == 1 && CanFinish(arcs, out, s, work[0].node)
    ensures s.low[work[0].node] == s.idx[work[0].node]
  {
    var u := work[0].node;
    forall p | p in s.live
      ensures p == u
    {
      assert InFrames(work, p);
    }
    if s.low[u] < s.idx[u] {
      var p := ReachesOlder(arcs, out, s, u);
      assert false;
    }
  }

  ghost predicate FramesListOk(out: Adjacency, s: Search, work: seq<Frame>) {
    DatesOk(s) && FramesList(out, s, work)
  }

  /** Visiting the node of the last frame settles the state. */
  lemma VisitSettles(arcs: Arcs, out: Adjacency, s: Search, stack: seq<string>, onStack: map<string, bool>,
                     work: seq<Frame>)
    requires Discovering(arcs, out, s, stack, onStack, work) && Represents(out, arcs)
    ensures var v := work[|work| - 1].node;
            Settled(arcs, out, Rooted(s, v), stack + [v], onStack[v := true], work)
  {
    hide ClosedOk, ReachOk, LowsOk, ExaminedOk, DatesDistinct, StackLists, Reaches, FramesList, LedTo;
    var v := work[|work| - 1].node;
    LiveReachNew(arcs, out, s, work);
    RootedKeeps(arcs, out, s, v);
    VisitLists(s, stack, onStack, v);
    VisitFrames(out, s, work);
  }

  /** Every explored node reaches the one about to be visited. */
  lemma LiveReachNew(arcs: Arcs, out: Adjacency, s: Search, work: seq<Frame>)
    requires Inv(arcs, out, s) && Represents(out, arcs) && work != [] && FramesList(out, s, work[..|work| - 1])
    requires |work| > 1 ==> LedTo(out, s, work[|work| - 2], work[|work| - 1].node)
    ensures forall p :: p in s.live ==> Reaches(arcs, p, work[|work| - 1].node)
  {
    hide ClosedOk, LowsOk, ExaminedOk, DatesDistinct, Reaches;
    var before, v := work[..|work| - 1], work[|work| - 1].node;
    forall p | p in s.live
      ensures Reaches(arcs, p, v)
    {
      assert InFrames(before, p);
      var parent := before[|before| - 1].node;
      TopOfFrames(arcs, out, s, before);
      assert Reaches(arcs, p, parent);
      assert v in Successors(out, parent);
      ReachesThenArc(arcs, p, parent, v);
    }
  }

  lemma VisitLists(s: Search, stack: seq<string>, onStack: map<string, bool>, v: string)
    requires DatesOk(s) && DatesDistinct(s) && StackLists(s, stack, onStack) && v !in s.idx
    ensures DatesOk(Rooted(s, v)) && StackLists(Rooted(s, v), stack + [v], onStack[v := true])
  {
    var s', stack' := Rooted(s, v), stack + [v];
    forall i | 0 <= i < |stack|
      ensures stack[i] in s.idx && s.idx[stack[i]] < |s.idx|
    {
      assert stack[i] in stack;
    }
    forall i, j | 0 <= i < j < |stack'|
      ensures stack'[i] in s'.idx && stack'[j] in s'.idx && s'.idx[stack'[i]] < s'.idx[stack'[j]]
    {
      assert stack'[i] == stack[i];
      assert j < |stack| ==> stack'[j] == stack[j];
    }
    hide DatesDistinct;
    forall n ensures n in s'.open <==> n in stack' {
    }
  }

  lemma VisitFrames(out: Adjacency, s: Search, work: seq<Frame>)
    requires DatesOk(s) && DatesDistinct(s) && work != [] && work[|work| - 1].node !in s.idx
    requires FramesList(out, s, work[..|work| - 1])
    requires |work| > 1 ==> LedTo(out, s, work[|work| - 2], work[|work| - 1].node)
    ensures DatesOk(Rooted(s, work[|work| - 1].node)) && FramesList(out, Rooted(s, work[|work| - 1].node), work)
  {
    hide LedTo, InFrames, DatesDistinct;
    var before, v := work[..|work| - 1], work[|work| - 1].node;
    var s' := Rooted(s, v);
    forall k | 0 <= k < |work| - 1
      ensures work[k].node in s.live && work[k].node in s'.live
    {
      assert work[k] == before[k] && before[k].node in s.live;
    }
    FramesStillListed(s, work);
    FramesStillLead(out, s, work);
    FramesStillOrdered(out, s, work);
  }

  lemma FramesStillOrdered(out: Adjacency, s: Search, work: seq<Frame>)
    requires DatesOk(s) && DatesDistinct(s) && work != [] && work[|work| - 1].node !in s.idx
    requires FramesList(out, s, work[..|work| - 1])
    ensures var s' := Rooted(s, work[|work| - 1].node);
            forall j, k :: 0 <= j < k < |work| && work[j].node in s'.idx && work[k].node in s'.idx
                           ==> s'.idx[work[j].node] < s'.idx[work[k].node]
  {
    hide LedTo, InFrames;
    var before := work[..|work| - 1];
    forall k | 0 <= k < |before| ensures work[k].node in s.idx && s.idx[work[k].node] < |s.idx| {
      assert work[k] == before[k] && before[k].node in s.live;
    }
    forall j, k | 0 <= j < k < |before| ensures s.idx[work[j].node] < s.idx[work[k].node] {
      assert work[j] == before[j] && work[k] == before[k];
    }
  }

  lemma FramesStillListed(s: Search, work: seq<Frame>)
    requires work != [] && forall n :: n in s.live ==> InFrames(work[..|work| - 1], n)
    ensures forall n :: n in Rooted(s, work[|work| - 1].node).live ==> InFrames(work, n)
  {
    var before, v := work[..|work| - 1], work[|work| - 1].node;
    forall n | n in s.live + {v}
      ensures InFrames(work, n)
    {
      if n == v {
        assert work[|work| - 1].node == n;
      } else {
        assert InFrames(before, n);
        var k :| 0 <= k < |before| && before[k].node == n;
        assert work[k].node == n;
      }
    }
  }

  lemma FramesStillLead(out: Adjacency, s: Search, work: seq<Frame>)
    requires work != [] && work[|work| - 1].node !in s.idx && DatesOk(s)
    requires forall k :: 0 <= k < |work| - 1 ==> work[k].node in s.live
    requires FramesList(out, s, work[..|work| - 1])
    requires |work| > 1 ==> LedTo(out, s, work[|work| - 2], work[|work| - 1].node)
    ensures forall k :: 0 <= k < |work| - 1 ==> LedTo(out, Rooted(s, work[|work| - 1].node), work[k], work[k + 1].node)
  {
    var before, v := work[..|work| - 1], work[|work| - 1].node;
    forall k | 0 <= k < |work| - 1
      ensures LedTo(out, Rooted(s, v), work[k], work[k + 1].node)
    {
      assert work[k].node != v;
      if k < |before| - 1 {
        assert before[k] == work[k] && before[k + 1] == work[k + 1];
        assert LedTo(out, s, before[k], before[k + 1].node);
      } else {
        assert LedTo(out, s, work[k], v);
      }
    }
  }

  lemma SameStack(s: Search, s': Search, stack: seq<string>, onStack: map<string, bool>)
    requires DatesOk(s) && DatesOk(s') && StackLists(s, stack, onStack) && s'.idx == s.idx && s'.open == s.open
    ensures StackLists(s', stack, onStack)
  {
  }

  function MovedOn(work: seq<Frame>): (work': seq<Frame>)
    requires work != []
    ensures |work'| == |work|
    ensures forall k :: 0 <= k < |work| ==> work'[k].node == work[k].node && (k < |work| - 1 ==> work'[k] == work[k])
    ensures work'[|work| - 1] == Frame(work[|work| - 1].node, work[|work| - 1].pi + 1)
  {
    work[|work| - 1 := Frame(work[|work| - 1].node, work[|work| - 1].pi + 1)]
  }

  /** Examining an edge to a visited node. */
  lemma ExamineSettles(arcs: Arcs, out: Adjacency, s: Search, stack: seq<string>, onStack: map<string, bool>,
                       work: seq<Frame>, y: string)
    requires Settled(arcs, out, s, stack, onStack, work) && Represents(out, arcs) && work != []
    requires var f := work[|work| - 1]; f.pi < |Successors(out, f.node)| && y == Successors(out, f.node)[f.pi]
                                        && y in s.idx
    ensures work[|work| - 1].node in s.low
    ensures Settled(arcs, out, Examined(s, work[|work| - 1].node, y), stack, onStack, MovedOn(work))
  {
    hide ReachOk, ClosedOk, LowsOk, DatesDistinct, ExaminedOk, StackLists, FramesList, MovedOn;
    var f := work[|work| - 1];
    TopOfFrames(arcs, out, s, work);
    var s' := Examined(s, f.node, y);
    ExaminedKeeps(arcs, out, s, f.node, y);
    FramesMoved(out, s, s', work, MovedOn(work));
    SameStack(s, s', stack, onStack);
  }

  /** The last frame may move on without disturbing the others. */
  lemma FramesMoved(out: Adjacency, s: Search, s': Search, work: seq<Frame>, work': seq<Frame>)
    requires DatesOk(s) && FramesList(out, s, work) && DatesOk(s') && work != [] && |work'| == |work|
    requires s'.idx == s.idx && s'.live == s.live
    requires forall k :: 0 <= k < |work| ==> work'[k].node == work[k].node && (k < |work| - 1 ==> work'[k] == work[k])
    requires forall n :: n in s.next && n != work[|work| - 1].node ==> n in s'.next && s'.next[n] == s.next[n]
    ensures FramesList(out, s', work')
  {
    var top := |work| - 1;
    forall n | n in s'.live
      ensures InFrames(work', n)
    {
      assert InFrames(work, n);
      var k :| 0 <= k < |work| && work[k].node == n;
      assert work'[k].node == n;
    }
    forall k | 0 <= k < |work'| - 1
      ensures LedTo(out, s', work'[k], work'[k + 1].node)
    {
      assert LedTo(out, s, work[k], work[k + 1].node);
      assert s.idx[work[k].node] < s.idx[work[top].node];
    }
  }

  /** An edge to a node not visited yet opens a frame for it. */
  lemma PushDiscovers(arcs: Arcs, out: Adjacency, s: Search, stack: seq<string>, onStack: map<string, bool>,
                      work: seq<Frame>, y: string)
    requires Settled(arcs, out, s, stack, onStack, work) && work != []
    requires var f := work[|work| - 1]; f.pi < |Successors(out, f.node)| && y == Successors(out, f.node)[f.pi]
                                        && y !in s.idx
    ensures Discovering(arcs, out, s, stack, onStack, MovedOn(work) + [Frame(y, 0)])
  {
    hide Inv, StackLists, FramesList, MovedOn;
    assert DatesOk(s) by { InvDates(arcs, out, s); }
    FramesMoved(out, s, s, work, MovedOn(work));
    assert (MovedOn(work) + [Frame(y, 0)])[..|work|] == MovedOn(work);
  }

  lemma InvDates(arcs: Arcs, out: Adjacency, s: Search)
    requires Inv(arcs, out, s)
    ensures DatesOk(s) && ExaminedOk(out, s) && DatesDistinct(s)
  {
  }

  /** The last frame is dropped and the one before it takes note. */
  lemma FramesDropped(arcs: Arcs, out: Adjacency, s: Search, s': Search, work: seq<Frame>)
    requires DatesOk(s) && FramesList(out, s, work) && DatesOk(s') && work != []
    requires s'.idx == s.idx && s'.live == s.live - {work[|work| - 1].node}
    requires forall n :: n in s.next && (|work| > 1 ==> n != work[|work| - 2].node)
                         ==> n in s'.next && s'.next[n] == s.next[n]
    ensures FramesList(out, s', work[..|work| - 1])
  {
    var top, work' := |work| - 1, work[..|work| - 1];
    forall n | n in s'.live
      ensures InFrames(work', n)
    {
      assert InFrames(work, n);
      var k :| 0 <= k < |work| && work[k].node == n;
      assert work'[k].node == n;
    }
    forall k | 0 <= k < |work'|
      ensures work'[k].node in s'.live
      ensures k < |work'| - 1 ==> LedTo(out, s', work'[k], work'[k + 1].node)
    {
      assert s.idx[work[k].node] < s.idx[work[top].node];
      if k < |work'| - 1 {
        assert LedTo(out, s, work[k], work[k + 1].node);
        assert s.idx[work[k].node] < s.idx[work[top - 1].node];
      }
    }
  }

  lemma LastLedTo(out: Adjacency, s: Search, work: seq<Frame>)
    requires DatesOk(s) && FramesList(out, s, work) && |work| > 1
    ensures LedTo(out, s, work[|work| - 2], work[|work| - 1].node)
  {
    assert work[|work| - 2 + 1] == work[|work| - 1];
  }

  /** Returning from a node whose component stays open. */
  lemma ReturnSettles(arcs: Arcs, out: Adjacency, s: Search, stack: seq<string>, onStack: map<string, bool>,
                      work: seq<Frame>)
    requires Settled(arcs, out, s, stack, onStack, work) && Represents(out, arcs) && work != []
    requires var f := work[|work| - 1]; f.pi == |Successors(out, f.node)| && s.low[f.node] < s.idx[f.node]
    ensures |work| > 1
    ensures var u, p := work[|work| - 1].node, work[|work| - 2].node;
            p in s.low && p in s.next && Settled(arcs, out, Returned(s, u, p), stack, onStack, work[..|work| - 1])
  {
    hide ReachOk, ClosedOk, LowsOk, DatesDistinct, ExaminedOk, StackLists, FramesList;
    var u := work[|work| - 1].node;
    TopOfFrames(arcs, out, s, work);
    if |work| == 1 {
      LoneIsRoot(arcs, out, s, work);
      assert false;
    }
    var p := work[|work| - 2].node;
    ReturnedKeeps(arcs, out, s, u, p);
    LastLedTo(out, s, work);
    FramesDropped(arcs, out, s, Returned(s, u, p), work);
    SameStack(s, Returned(s, u, p), stack, onStack);
  }

  /** Pops one component off the stack, down to and including `node`, and clears its marks. */
  method PopComponent(stack: seq<string>, onStack: map<string, bool>, node: string)
    returns (rest: seq<string>, marks: map<string, bool>, scc: seq<string>)
    requires node in stack && Distinct(stack)
    ensures rest < stack && stack[|rest|] == node
    ensures |scc| == |stack| - |rest| && forall n :: n in scc <==> n in stack[|rest|..]
    ensures forall n :: n in marks && marks[n] <==> n in onStack && onStack[n] && n !in stack[|rest|..]
  {
    rest, marks, scc := stack, onStack, [];
    while true
      invariant rest <= stack && node in rest
      invariant |scc| == |stack| - |rest| && forall n :: n in scc <==> n in stack[|rest|..]
      invariant forall n :: n in marks && marks[n] <==> n in onStack && onStack[n] && n !in stack[|rest|..]
      decreases |rest|
    {
      var w := rest[|rest| - 1];
      assert stack[|rest| - 1..] == [w] + stack[|rest|..];
      assert rest == rest[..|rest| - 1] + [w];
      rest := rest[..|rest| - 1];
      marks := marks[w := false];
      scc := scc + [w];
      if w == node {
        break;
      }
    }
  }

  /** Dates make the stack free of repetitions, and the component is what lies from u upwards. */
  lemma ComponentOnStack(s: Search, stack: seq<string>, onStack: map<string, bool>, u: string, i: nat)
    requires DatesOk(s) && StackLists(s, stack, onStack) && u in s.open && i < |stack| && stack[i] == u
    ensures Component(s, u) == set n | n in stack[i..]
  {
    var upper := stack[i..];
    forall n ensures n in Component(s, u) <==> n in upper {
      if n in Component(s, u) {
        assert n in stack;
        var k :| 0 <= k < |stack| && stack[k] == n;
        assert stack[i] in stack && stack[k] in stack;
        assert i <= k;
        assert upper[k - i] == n;
      }
      if n in upper {
        var k :| 0 <= k < |upper| && upper[k] == n;
        assert stack[i + k] == n && stack[i + k] in stack && stack[i] in stack;
        assert k > 0 ==> s.idx[stack[i]] < s.idx[stack[i + k]];
      }
    }
  }

  lemma StackIsDistinct(s: Search, stack: seq<string>, onStack: map<string, bool>)
    requires DatesOk(s) && StackLists(s, stack, onStack)
    ensures Distinct(stack)
  {
    forall i, j | 0 <= i < j < |stack|
      ensures stack[i] != stack[j]
    {
      assert stack[i] in stack && stack[j] in stack;
    }
  }

  lemma {:induction false} DistinctSize(xs: seq<string>)
    requires Distinct(xs)
    ensures |set n | n in xs| == |xs|
  {
    if xs != [] {
      var init, last := xs[..|xs| - 1], xs[|xs| - 1];
      DistinctSize(init);
      assert xs == init + [last];
      assert last !in init;
      assert (set n | n in xs) == (set n | n in init) + {last};
    }
  }

  lemma StackBelow(s: Search, stack: seq<string>, onStack: map<string, bool>, u: string, i: nat)
    requires DatesOk(s) && StackLists(s, stack, onStack) && u in s.open && i < |stack| && stack[i] == u
    ensures forall n :: n in stack[..i] <==> n in s.open && s.idx[n] < s.idx[u]
  {
    var lower := stack[..i];
    forall n ensures n in lower <==> n in s.open && s.idx[n] < s.idx[u] {
      if n in lower {
        var k :| 0 <= k < i && lower[k] == n;
        assert stack[k] == n && stack[k] in stack && stack[i] in stack;
      }
      if n in s.open && s.idx[n] < s.idx[u] {
        assert n in stack;
        var k :| 0 <= k < |stack| && stack[k] == n;
        assert stack[i] in stack;
        assert k < i;
        assert lower[k] == n;
      }
    }
  }

  /** What is left on the stack is what is left open. */
  lemma StackAfterPop(s: Search, stack: seq<string>, onStack: map<string, bool>, u: string, i: nat,
                      marks: map<string, bool>)
    requires DatesOk(s) && StackLists(s, stack, onStack) && u in s.open && i < |stack| && stack[i] == u
    requires forall n :: n in marks && marks[n] <==> n in onStack && onStack[n] && n !in stack[i..]
    requires DatesOk(Completed(s, u))
    ensures StackLists(Completed(s, u), stack[..i], marks)
  {
    ComponentOnStack(s, stack, onStack, u, i);
    StackBelow(s, stack, onStack, u, i);
    var s', upper := Completed(s, u), stack[i..];
    forall n ensures n in s'.open <==> n in marks && marks[n] {
      assert n in upper <==> n in Component(s, u);
    }
  }

  /** The state after a component is complete: the parent, if any, moves past the edge to its root. */
  ghost function AfterRoot(s: Search, work: seq<Frame>): Search
    requires DatesOk(s) && work != [] && work[|work| - 1].node in s.idx
    requires |work| > 1 ==> work[|work| - 2].node in s.idx
  {
    var u := work[|work| - 1].node;
    if |work| == 1 then Completed(s, u) else Examined(Completed(s, u), work[|work| - 2].node, u)
  }

  lemma AfterRootFields(s: Search, work: seq<Frame>)
    requires DatesOk(s) && work != [] && work[|work| - 1].node in s.open
    requires |work| > 1 ==> work[|work| - 2].node in s.idx
    ensures var u, s' := work[|work| - 1].node, AfterRoot(s, work);
            && s'.idx == s.idx && s'.low == s.low
            && s'.result == if |Component(s, u)| > 1 then s.result + Component(s, u) else s.result
  {
    assert work[|work| - 1].node in Component(s, work[|work| - 1].node);
  }

  lemma RootSettles(arcs: Arcs, out: Adjacency, s: Search, stack: seq<string>, onStack: map<string, bool>,
                    work: seq<Frame>, i: nat, marks: map<string, bool>)
    requires Settled(arcs, out, s, stack, onStack, work) && Represents(out, arcs) && work != [] && NoSelfLoops(arcs)
    requires var f := work[|work| - 1];
             && f.pi == |Successors(out, f.node)| && s.low[f.node] == s.idx[f.node] && i < |stack| && stack[i] == f.node
    requires forall n :: n in marks && marks[n] <==> n in onStack && onStack[n] && n !in stack[i..]
    ensures work[|work| - 1].node in s.idx && (|work| > 1 ==> work[|work| - 2].node in s.idx)
    ensures Settled(arcs, out, AfterRoot(s, work), stack[..i], marks, work[..|work| - 1])
    ensures |work| > 1 ==> s.low[work[|work| - 2].node] < s.low[work[|work| - 1].node]
  {
    hide ReachOk, ClosedOk, DatesDistinct, ExaminedOk, StackLists, FramesList;
    var u := work[|work| - 1].node;
    TopOfFrames(arcs, out, s, work);
    CompletedKeeps(arcs, out, s, u);
    StackAfterPop(s, stack, onStack, u, i, marks);
    if |work| == 1 {
      FramesDropped(arcs, out, s, Completed(s, u), work);
    } else {
      var p := work[|work| - 2].node;
      SkipKeeps(arcs, out, s, u, p);
      ExaminedKeeps(arcs, out, Completed(s, u), p, u);
      LastLedTo(out, s, work);
      FramesDropped(arcs, out, s, AfterRoot(s, work), work);
      SameStack(Completed(s, u), AfterRoot(s, work), stack[..i], marks);
      ParentIsOlder(out, s, work);
    }
  }

  lemma ParentIsOlder(out: Adjacency, s: Search, work: seq<Frame>)
    requires DatesOk(s) && FramesList(out, s, work) && |work| > 1
    ensures s.idx[work[|work| - 2].node] < s.idx[work[|work| - 1].node]
  {
  }

  ghost function Work(out: Adjacency, work: seq<Frame>): nat {
    if work == [] || |Successors(out, work[|work| - 1].node)| < work[|work| - 1].pi then 0
    else |Successors(out, work[|work| - 1].node)| - work[|work| - 1].pi
  }

  lemma EmptySettled(arcs: Arcs, out: Adjacency)
    ensures Settled(arcs, out, Search(map[], map[], map[], {}, {}, {}), [], map[], [])
  {
  }

  lemma SettledIsDated(arcs: Arcs, out: Adjacency, s: Search, stack: seq<string>, onStack: map<string, bool>,
                       work: seq<Frame>)
    requires Settled(arcs, out, s, stack, onStack, work)
    ensures DatesOk(s) && Distinct(stack)
    ensures forall n :: n in s.open <==> n in onStack && onStack[n]
    ensures work != [] ==> var u := work[|work| - 1].node;
                           u in s.open && u in s.idx && u in s.low && u in stack && s.low[u] <= s.idx[u]
                           && work[|work| - 1].pi == s.next[u] <= |Successors(out, u)|
    ensures |work| > 1 ==> work[|work| - 2].node in s.idx && work[|work| - 2].node in s.low && work[|work| - 2].pi != 0
  {
    StackIsDistinct(s, stack, onStack);
    hide ReachOk, ClosedOk, DatesDistinct;
    if |work| > 1 {
      LastLedTo(out, s, work);
    }
  }

  /** When nothing is explored, nothing is open, and the result is complete. */
  lemma AllClassified(arcs: Arcs, out: Adjacency, s: Search, stack: seq<string>, onStack: map<string, bool>)
    requires Settled(arcs, out, s, stack, onStack, [])
    ensures forall n :: n in s.result <==> n in s.idx && OnCycle(arcs, n)
  {
    hide OnCycle, Reaches, DatesDistinct, LowsOk, ExaminedOk;
    forall p ensures p !in s.live {
      assert p in s.live ==> InFrames([], p);
    }
    forall x ensures x !in s.open {
      assert x in s.open ==> ReachesLive(arcs, s, x);
    }
    assert forall n :: Closed(s, n) <==> n in s.idx;
  }

  ghost predicate Fresh(work: seq<Frame>) {
    work != [] && work[|work| - 1].pi == 0
  }

  lemma SuccessorKnown(out: Adjacency, arcs: Arcs, nodeIds: set<string>, node: string, pi: nat)
    requires Represents(out, arcs) && pi < |Successors(out, node)|
    requires forall u, v :: (u, v) in arcs ==> u in nodeIds && v in nodeIds
    ensures Successors(out, node)[pi] in nodeIds
  {
    assert Successors(out, node)[pi] in Successors(out, node);
  }

  lemma ComponentSize(arcs: Arcs, out: Adjacency, s: Search, stack: seq<string>, onStack: map<string, bool>,
                      work: seq<Frame>, i: nat)
    requires Settled(arcs, out, s, stack, onStack, work) && work != [] && i < |stack|
             && stack[i] == work[|work| - 1].node
    ensures work[|work| - 1].node in s.idx
    ensures DatesOk(s) && Component(s, work[|work| - 1].node) == (set n | n in stack[i..])
    ensures |Component(s, work[|work| - 1].node)| == |stack| - i
  {
    hide ReachOk, ClosedOk, LowsOk, ExaminedOk, DatesDistinct;
    ComponentOnStack(s, stack, onStack, work[|work| - 1].node, i);
    StackIsDistinct(s, stack, onStack);
    DistinctSize(stack[i..]);
  }

  /** The search's local variables. */
  datatype Tables = Tables(index: map<string, nat>, lowlink: map<string, nat>, onStack: map<string, bool>,
                           stack: seq<string>, result: set<string>)

  ghost predicate Mirrors(t: Tables, s: Search) {
    t.index == s.idx && t.lowlink == s.low && t.result == s.result
  }

  ghost predicate SettledAt(arcs: Arcs, out: Adjacency, s: Search, t: Tables, work: seq<Frame>) {
    Settled(arcs, out, s, t.stack, t.onStack, work) && Mirrors(t, s)
  }

  ghost predicate DiscoveringAt(arcs: Arcs, out: Adjacency, s: Search, t: Tables, work: seq<Frame>) {
    Discovering(arcs, out, s, t.stack, t.onStack, work) && Mirrors(t, s)
  }

  lemma DiscoveringNode(arcs: Arcs, out: Adjacency, s: Search, stack: seq<string>, onStack: map<string, bool>,
                        work: seq<Frame>)
    requires Discovering(arcs, out, s, stack, onStack, work)
    ensures work != [] && work[|work| - 1].node !in s.idx
  {
  }

  function Visited(t: Tables, node: string): Tables {
    var date := |t.index|;
    Tables(t.index[node := date], t.lowlink[node := date], t.onStack[node := true], t.stack + [node], t.result)
  }

  lemma VisitMirrors(t: Tables, s: Search, node: string)
    requires Mirrors(t, s) && node !in s.idx
    ensures Mirrors(Visited(t, node), Rooted(s, node))
    ensures Visited(t, node).index.Keys == t.index.Keys + {node}
  {
    assert |t.index| == |s.idx|;
    assert Visited(t, node).index == Rooted(s, node).idx;
    assert Visited(t, node).index.Keys == t.index.Keys + {node};
  }

  /** First visit of the node of the last frame. */
  method VisitTop(out: Adjacency, t: Tables, work: seq<Frame>, ghost s: Search, ghost arcs: Arcs)
    returns (t': Tables, ghost s': Search)
    requires DiscoveringAt(arcs, out, s, t, work) && Represents(out, arcs)
    ensures work != [] && SettledAt(arcs, out, s', t', work)
    ensures t'.index.Keys == t.index.Keys + {work[|work| - 1].node}
  {
    hide Settled, Discovering, Represents, Mirrors, Rooted;
    DiscoveringNode(arcs, out, s, t.stack, t.onStack, work);
    var node := work[|work| - 1].node;
    VisitSettles(arcs, out, s, t.stack, t.onStack, work);
    VisitMirrors(t, s, node);
    s' := Rooted(s, node);
    t' := Visited(t, node);
  }

  /** The last frame examines its next successor, opening a frame for it if it is new. */
  method ExamineNext(out: Adjacency, t: Tables, work: seq<Frame>, ghost s: Search, ghost arcs: Arcs)
    returns (t': Tables, work': seq<Frame>, ghost s': Search)
    requires SettledAt(arcs, out, s, t, work) && Represents(out, arcs) && work != []
    requires work[|work| - 1].pi < |Successors(out, work[|work| - 1].node)|
    ensures t'.index == t.index
    ensures var f := work[|work| - 1];
            var succ := Successors(out, f.node)[f.pi];
            if succ in t.index then work' == MovedOn(work) && SettledAt(arcs, out, s', t', work')
            else work' == MovedOn(work) + [Frame(succ, 0)] && DiscoveringAt(arcs, out, s', t', work')
  {
    hide Inv, StackLists, FramesList, Settled, Discovering, MovedOn;
    var Frame(node, pi) := work[|work| - 1];
    var succ := Successors(out, node)[pi];
    SettledIsDated(arcs, out, s, t.stack, t.onStack, work);
    t', s' := t, s;
    if succ !in t.index {
      PushDiscovers(arcs, out, s, t.stack, t.onStack, work, succ);
      work' := MovedOn(work) + [Frame(succ, 0)];
    } else {
      ExamineSettles(arcs, out, s, t.stack, t.onStack, work, succ);
      if succ in t.onStack && t.onStack[succ] && t.index[succ] < t.lowlink[node] {
        t' := t.(lowlink := t.lowlink[node := t.index[succ]]);
      }
      s' := Examined(s, node, succ);
      work' := MovedOn(work);
    }
  }

  /**
   The node of the last frame is done: a root takes its component off the stack, then its parent inherits the lowlink.
   */
  method FinishTop(out: Adjacency, t: Tables, work: seq<Frame>, ghost s: Search, ghost arcs: Arcs)
    returns (t': Tables, ghost s': Search)
    requires SettledAt(arcs, out, s, t, work) && Represents(out, arcs) && NoSelfLoops(arcs) && work != []
    requires work[|work| - 1].pi >= |Successors(out, work[|work| - 1].node)|
    ensures t'.index == t.index && SettledAt(arcs, out, s', t', work[..|work| - 1])
    ensures |work| > 1 ==> work[|work| - 2].pi != 0
  {
    hide Inv, StackLists, FramesList, Settled;
    SettledIsDated(arcs, out, s, t.stack, t.onStack, work);
    var node := work[|work| - 1].node;
    t' := t;
    if t.lowlink[node] == t.index[node] {
      var rest, marks, scc := PopComponent(t.stack, t.onStack, node);
      assert rest == t.stack[..|rest|];
      ComponentSize(arcs, out, s, t.stack, t.onStack, work, |rest|);
      RootSettles(arcs, out, s, t.stack, t.onStack, work, |rest|, marks);
      var members := set n | n in scc;
      assert members == Component(s, node);
      t' := t.(stack := rest, onStack := marks, result := if |scc| > 1 then t.result + members else t.result);
      s' := AfterRoot(s, work);
      AfterRootFields(s, work);
      assert Mirrors(t', s');
    } else {
      ReturnSettles(arcs, out, s, t.stack, t.onStack, work);
      s' := Returned(s, node, work[|work| - 2].node);
      assert t'.stack == t.stack && s'.result == t'.result && s'.idx == t'.index;
    }
    if |work| > 1 {
      var parent := work[|work| - 2].node;
      if t'.lowlink[node] < t'.lowlink[parent] {
        t' := t'.(lowlink := t'.lowlink[parent := t'.lowlink[node]]);
      }
    }
  }

  lemma DiscoveringRoot(arcs: Arcs, out: Adjacency, s: Search, t: Tables, root: string)
    requires SettledAt(arcs, out, s, t, []) && root !in t.index
    ensures DiscoveringAt(arcs, out, s, t, [Frame(root, 0)])
  {
    hide ReachOk, ClosedOk, DatesDistinct, LowsOk, ExaminedOk;
    assert [Frame(root, 0)][..0] == [];
  }

  /** Explores all that is reachable from a root: the inner loop, over an explicit stack of frames. */
  method Explore(root: string, out: Adjacency, nodeIds: set<string>, t0: Tables, ghost s0: Search, ghost arcs: Arcs)
    returns (t: Tables, ghost s: Search)
    requires Represents(out, arcs) && NoSelfLoops(arcs) && root in nodeIds
    requires forall u, v :: (u, v) in arcs ==> u in nodeIds && v in nodeIds
    requires SettledAt(arcs, out, s0, t0, []) && root !in t0.index && t0.index.Keys <= nodeIds
    ensures SettledAt(arcs, out, s, t, []) && t0.index.Keys + {root} <= t.index.Keys <= nodeIds
  {
    hide SettledAt, DiscoveringAt, MovedOn, Represents;
    t, s := t0, s0;
    var work := [Frame(root, 0)];
    DiscoveringRoot(arcs, out, s, t, root);
    while work != []
      invariant if Fresh(work) then DiscoveringAt(arcs, out, s, t, work) else SettledAt(arcs, out, s, t, work)
      invariant t0.index.Keys <= t.index.Keys <= nodeIds && (root in t.index || work == [Frame(root, 0)])
      invariant Fresh(work) ==> work[|work| - 1].node in nodeIds && work[|work| - 1].node !in t.index
      decreases nodeIds - t.index.Keys, if Fresh(work) then 0 else 1, |work|, Work(out, work)
    {
      var Frame(node, pi) := work[|work| - 1];
      ghost var before := t.index.Keys;
      if pi == 0 {
        t, s := VisitTop(out, t, work, s, arcs);
        assert node in nodeIds - before && node !in nodeIds - t.index.Keys;
      }
      if pi < |Successors(out, node)| {
        SuccessorKnown(out, arcs, nodeIds, node, pi);
        t, work, s := ExamineNext(out, t, work, s, arcs);
      } else {
        t, s := FinishTop(out, t, work, s, arcs);
        work := work[..|work| - 1];
      }
    }
  }

  /**
   Every node that lies on at least one directed cycle: an outer loop over the roots, an inner one
   over an explicit stack of frames.
   */
  method NodesOnCycle(out: Adjacency, nodeIds: set<string>, ghost arcs: Arcs) returns (result: set<string>)
    requires Represents(out, arcs) && NoSelfLoops(arcs)
    requires forall u, v :: (u, v) in arcs ==> u in nodeIds && v in nodeIds
    ensures forall n :: n in result <==> n in nodeIds && OnCycle(arcs, n)
  {
    hide Settled, OnCycle;
    var t := Tables(map[], map[], map[], [], {});
    ghost var s := Search(map[], map[], map[], {}, {}, {});
    EmptySettled(arcs, out);
    var todo := nodeIds;
    while todo != {}
      invariant todo <= nodeIds
      invariant SettledAt(arcs, out, s, t, [])
      invariant nodeIds - todo <= t.index.Keys <= nodeIds
      decreases todo
    {
      var root :| root in todo;
      todo := todo - {root};
      if root !in t.index {
        t, s := Explore(root, out, nodeIds, t, s, arcs);
      }
    }
    AllClassified(arcs, out, s, t.stack, t.onStack);
    result := t.result;
  }
}
