/** Assignments to dotted paths in a JSON state, as functions on values. */
module StatePaths {
  import opened Workflow

  type Path = seq<string>

  datatype Assignment = Assignment(path: Path, value: Value)

  /** What a path leads to. */
  function Lookup(v: Value, path: Path): Option<Value>
    decreases |path|
  {
    if path == [] then Some(v)
    else if v.Dict? && path[0] in v.fields then Lookup(v.fields[path[0]], path[1..])
    else None
  }

  function ChildOf(fields: Payload, key: string): Value {
    if key in fields then fields[key] else Null
  }

  /** Writes at a path, making dicts where there is nothing or null; None where something else is in the way. */
  function PutPath(fields: Payload, path: Path, x: Value): Option<Payload>
    requires path != []
    decreases |path|
  {
    if |path| == 1 then Some(fields[path[0] := x])
    else
      var child := ChildOf(fields, path[0]);
      if !child.Null? && !child.Dict? then None
      else
        var sub := PutPath(if child.Dict? then child.fields else map[], path[1..], x);
        if sub.None? then None else Some(fields[path[0] := Dict(sub.value)])
  }

  /** Something on the way to the path that is neither a dict nor null. */
  ghost predicate Obstructed(fields: Payload, path: Path) {
    exists n :: 0 < n < |path| && Obstructs(Lookup(Dict(fields), path[..n]))
  }

  predicate Obstructs(found: Option<Value>) {
    found.Some? && !found.value.Dict? && !found.value.Null?
  }

  /** A write fails exactly when something is in the way. */
  lemma {:induction false} PutFailsIffObstructed(fields: Payload, path: Path, x: Value)
    requires path != []
    ensures PutPath(fields, path, x).None? <==> Obstructed(fields, path)
    decreases |path|
  {
    if |path| > 1 {
      var child := ChildOf(fields, path[0]);
      var inner := if child.Dict? then child.fields else map[];
      PutFailsIffObstructed(inner, path[1..], x);
      forall n | 0 < n < |path|
        ensures Lookup(Dict(fields), path[..n])
                == if path[0] !in fields then None else Lookup(fields[path[0]], path[1..][..n - 1])
      {
        assert path[..n][0] == path[0] && path[..n][1..] == path[1..][..n - 1];
      }
      assert path[1..][..0] == [];
      if Obstructed(inner, path[1..]) {
        var n :| 0 < n < |path[1..]| && Obstructs(Lookup(Dict(inner), path[1..][..n]));
        assert path[1..][..n + 1 - 1] == path[1..][..n];
        assert child.Dict? ==> Obstructs(Lookup(Dict(fields), path[..n + 1]));
      }
      if !child.Dict? && !child.Null? {
        assert Obstructs(Lookup(Dict(fields), path[..1]));
      }
      if Obstructed(fields, path) {
        var n :| 0 < n < |path| && Obstructs(Lookup(Dict(fields), path[..n]));
        assert n > 1 && child.Dict? ==> Obstructs(Lookup(Dict(inner), path[1..][..n - 1]));
      }
    }
  }

  ghost predicate Proper(assignments: seq<Assignment>) {
    forall i :: 0 <= i < |assignments| ==> assignments[i].path != []
  }

  /** The assignments applied in order to the state itself. */
  function AssignAll(state: Payload, assignments: seq<Assignment>): Option<Payload>
    requires Proper(assignments)
  {
    if assignments == [] then Some(state)
    else
      var before := AssignAll(state, assignments[..|assignments| - 1]);
      var a := assignments[|assignments| - 1];
      if before.None? then None else PutPath(before.value, a.path, a.value)
  }

  /**
   One update of the node: into an accumulator, seeded from the state at the first nested write of a top-level key.
   */
  function Accumulate(state: Payload, updates: Payload, a: Assignment): Option<Payload>
    requires a.path != []
  {
    var top := a.path[0];
    if |a.path| == 1 then Some(updates[top := a.value])
    else
      var container := if top in updates then updates[top] else if ChildOf(state, top).Null? then Dict(map[])
          else ChildOf(state, top);
      if !container.Dict? then None
      else
        var sub := PutPath(container.fields, a.path[1..], a.value);
        if sub.None? then None else Some(updates[top := Dict(sub.value)])
  }

  function AccumulateAll(state: Payload, assignments: seq<Assignment>): Option<Payload>
    requires Proper(assignments)
  {
    if assignments == [] then Some(map[])
    else
      var before := AccumulateAll(state, assignments[..|assignments| - 1]);
      if before.None? then None else Accumulate(state, before.value, assignments[|assignments| - 1])
  }

  /**
   A nested write below a key that an earlier assignment set to null is refused, where the state itself would allow
   it.
   */
  predicate NullInUpdates(updates: Payload, a: Assignment)
    requires a.path != []
  {
    |a.path| > 1 && a.path[0] in updates && updates[a.path[0]].Null?
  }

  /** The last assignment under the top-level key is the j-th, and sets the key itself to null. */
  ghost predicate NulledLast(assignments: seq<Assignment>, j: nat, top: string)
    requires Proper(assignments)
  {
    && j < |assignments| && assignments[j] == Assignment([top], Null)
    && forall i :: j < i < |assignments| ==> assignments[i].path[0] != top
  }

  /** The k-th assignment is a nested write below a key that the last earlier assignment under it set to null. */
  ghost predicate BelowFreshNull(assignments: seq<Assignment>, k: nat)
    requires Proper(assignments) && k < |assignments|
  {
    |assignments[k].path| > 1 && exists j :: NulledLast(assignments[..k], j, assignments[k].path[0])
  }

  /** A null among the accumulated updates is one written last. */
  lemma {:induction false} NullIsFresh(state: Payload, assignments: seq<Assignment>, top: string)
    requires Proper(assignments) && AccumulateAll(state, assignments).Some?
    ensures var acc := AccumulateAll(state, assignments).value;
            top in acc && acc[top].Null? <==> exists j :: NulledLast(assignments, j, top)
    decreases |assignments|
  {
    if assignments != [] {
      var last := |assignments| - 1;
      var init, a := assignments[..last], assignments[last];
      NullIsFresh(state, init, top);
      forall j: nat | j < last ensures NulledLast(assignments, j, top)
          <==> NulledLast(init, j, top) && a.path[0] != top {
        assert NulledLast(assignments, j, top) ==> assignments[last].path[0] != top;
        assert forall i :: 0 <= i < last ==> init[i] == assignments[i];
      }
      assert NulledLast(assignments, last, top) <==> a == Assignment([top], Null);
      assert |a.path| == 1 ==> a.path == [a.path[0]];
    }
  }

  /**
   One update overlaid is one write to the overlaid state; the node fails exactly where the write does, or below a
   fresh null.
   */
  lemma AccumulateIsPut(state: Payload, updates: Payload, a: Assignment)
    requires a.path != []
    ensures var put := PutPath(state + updates, a.path, a.value);
            var acc := Accumulate(state, updates, a);
            && (acc.None? <==> put.None? || NullInUpdates(updates, a))
            && (acc.Some? ==> put == Some(state + acc.value))
  {
    OverlaySet(state, updates, a.path[0], a.value);
    var acc := Accumulate(state, updates, a);
    if acc.Some? {
      OverlaySet(state, updates, a.path[0], acc.value[a.path[0]]);
    }
  }

  lemma OverlaySet(state: Payload, updates: Payload, key: string, x: Value)
    ensures (state + updates)[key := x] == state + updates[key := x]
  {
  }

  /**
   The updates of a successful run, overlaid on the old state, are the assignments applied in order.
   The node fails exactly when applying them fails or one of them goes below a fresh null.
   */
  lemma {:induction false} UpdatesAreFold(state: Payload, assignments: seq<Assignment>)
    requires Proper(assignments)
    ensures var acc := AccumulateAll(state, assignments);
            acc.Some? ==> AssignAll(state, assignments) == Some(state + acc.value)
    ensures AccumulateAll(state, assignments).None?
            <==> AssignAll(state, assignments).None?
                 || exists k :: 0 <= k < |assignments| && BelowFreshNull(assignments, k)
    decreases |assignments|
  {
    if assignments == [] {
      assert state + map[] == state;
    } else {
      var last := |assignments| - 1;
      var init := assignments[..last];
      UpdatesAreFold(state, init);
      forall k | 0 <= k < last ensures BelowFreshNull(init, k) <==> BelowFreshNull(assignments, k) {
        assert init[..k] == assignments[..k] && init[k] == assignments[k];
      }
      var acc := AccumulateAll(state, init);
      if acc.Some? {
        AccumulateIsPut(state, acc.value, assignments[last]);
        NullIsFresh(state, init, assignments[last].path[0]);
        assert NullInUpdates(acc.value, assignments[last]) <==> BelowFreshNull(assignments, last);
      } else if k :| 0 <= k < |init| && BelowFreshNull(init, k) {
        assert BelowFreshNull(assignments, k);
      }
    }
  }

  /** The failing case: the state takes a nested write below a null, the node refuses it below its own. */
  lemma FreshNullIsRefused()
    ensures var assignments := [Assignment(["u"], Null), Assignment(["u", "x"], Int(1))];
            && Proper(assignments) && AccumulateAll(map[], assignments).None?
            && AssignAll(map[], assignments) == Some(map["u" := Dict(map["x" := Int(1)])])
  {
    var first, second := Assignment(["u"], Null), Assignment(["u", "x"], Int(1));
    var assignments := [first, second];
    assert assignments[..1] == [first] && [first][..0] == [];
    assert ["u", "x"][1..] == ["x"];
    assert PutPath(map[], ["u"], Null) == Some(map["u" := Null]);
    assert AssignAll(map[], [first]) == Some(map["u" := Null]);
    var nulled, path := map["u" := Null], ["u", "x"];
    assert path[1..] == ["x"] && PutPath(map[], ["x"], Int(1)) == Some(map["x" := Int(1)]);
    assert nulled["u" := Dict(map["x" := Int(1)])] == map["u" := Dict(map["x" := Int(1)])];
    assert ChildOf(nulled, path[0]).Null?;
    assert PutPath(nulled, path, Int(1)) == Some(nulled["u" := Dict(map["x" := Int(1)])]);
    assert NulledLast(assignments[..1], 0, assignments[1].path[0]);
    assert BelowFreshNull(assignments, 1);
    UpdatesAreFold(map[], assignments);
  }

  predicate Comparable(p: Path, q: Path) {
    p <= q || q <= p
  }

  /** A write is read back at its path, and paths not comparable to it read as before. */
  lemma {:induction false} PutThenLookup(fields: Payload, p: Path, x: Value, q: Path)
    requires p != [] && PutPath(fields, p, x).Some?
    ensures Lookup(Dict(PutPath(fields, p, x).value), p) == Some(x)
    ensures !Comparable(p, q) ==> Lookup(Dict(PutPath(fields, p, x).value), q) == Lookup(Dict(fields), q)
    decreases |p|
  {
    if |p| == 1 {
      assert p[1..] == [];
      assert q != [] && q[0] == p[0] ==> p <= q;
    } else {
      var child := ChildOf(fields, p[0]);
      var inner := if child.Dict? then child.fields else map[];
      PutThenLookup(inner, p[1..], x, if q == [] then [] else q[1..]);
      if q != [] && q[0] == p[0] && !Comparable(p, q) {
        assert q == [q[0]] + q[1..] && p == [p[0]] + p[1..];
        assert !Comparable(p[1..], q[1..]);
        assert Lookup(Dict(inner), q[1..]) == Lookup(Dict(fields), q) by {
          assert q[1..] != [];
        }
      }
    }
  }

  /** Every path not comparable to a written one reads the same after all updates. */
  lemma {:induction false} UntouchedPathsStay(state: Payload, assignments: seq<Assignment>, q: Path)
    requires Proper(assignments) && AssignAll(state, assignments).Some?
    requires forall i :: 0 <= i < |assignments| ==> !Comparable(assignments[i].path, q)
    ensures Lookup(Dict(AssignAll(state, assignments).value), q) == Lookup(Dict(state), q)
    decreases |assignments|
  {
    if assignments != [] {
      var init, a := assignments[..|assignments| - 1], assignments[|assignments| - 1];
      UntouchedPathsStay(state, init, q);
      PutThenLookup(AssignAll(state, init).value, a.path, a.value, q);
    }
  }

  /** The last write comparable to a path is the one read there, if it wrote exactly that path. */
  lemma {:induction false} LastWriteIsRead(state: Payload, assignments: seq<Assignment>, k: nat)
    requires Proper(assignments) && AssignAll(state, assignments).Some? && k < |assignments|
    requires forall i :: k < i < |assignments| ==> !Comparable(assignments[i].path, assignments[k].path)
    ensures Lookup(Dict(AssignAll(state, assignments).value), assignments[k].path) == Some(assignments[k].value)
    decreases |assignments|
  {
    var init, a := assignments[..|assignments| - 1], assignments[|assignments| - 1];
    PutThenLookup(AssignAll(state, init).value, a.path, a.value, assignments[k].path);
    if k < |init| {
      LastWriteIsRead(state, init, k);
    }
  }

  /** The workflow state after the node, read at a path: written last, or as before. */
  lemma UpdatedStateReads(state: Payload, assignments: seq<Assignment>, q: Path)
    requires Proper(assignments) && AccumulateAll(state, assignments).Some?
    ensures var after := Dict(state + AccumulateAll(state, assignments).value);
            && ((forall i :: 0 <= i < |assignments| ==> !Comparable(assignments[i].path, q))
                ==> Lookup(after, q) == Lookup(Dict(state), q))
            && (forall k :: 0 <= k < |assignments| && assignments[k].path == q
                            && (forall i :: k < i < |assignments| ==> !Comparable(assignments[i].path, q))
                            ==> Lookup(after, q) == Some(assignments[k].value))
  {
    UpdatesAreFold(state, assignments);
    if forall i :: 0 <= i < |assignments| ==> !Comparable(assignments[i].path, q) {
      UntouchedPathsStay(state, assignments, q);
    }
    forall k | 0 <= k < |assignments| && assignments[k].path == q
        && (forall i :: k < i < |assignments| ==> !Comparable(assignments[i].path, q))
      ensures Lookup(Dict(AssignAll(state, assignments).value), q) == Some(assignments[k].value)
    {
      LastWriteIsRead(state, assignments, k);
    }
  }
}
