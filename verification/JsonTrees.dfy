/**
 JSON trees of mutable dicts: their shape, deep copies of them, and the in-place write at a path
 that creates dicts on the way.
 */
module JsonTrees {
  import opened Workflow
  import opened StatePaths

  /** A Python value: an immutable one, or a reference to a dict. */
  datatype Json = Atom(value: Value) | Ref(dict: PyDict)

  class PyDict {
    var fields: map<string, Json>

    constructor (fields: map<string, Json>)
      ensures this.fields == fields
    {
      this.fields := fields;
    }
  }

  /** The objects and the contents of a tree. */
  datatype Shape = Leaf(value: Value) | Branch(dict: PyDict, kids: map<string, Shape>)

  ghost function Objects(s: Shape): set<PyDict> {
    match s
    case Leaf(_) => {}
    case Branch(d, kids) => {d} + set k, o | k in kids && o in Objects(kids[k]) :: o
  }

  ghost function ObjectsOf(kids: map<string, Shape>): set<PyDict> {
    set k, o | k in kids && o in Objects(kids[k]) :: o
  }

  /** No dict occurs twice: a tree, not a graph. */
  ghost predicate Tree(s: Shape) {
    s.Branch? ==>
      && (forall k :: k in s.kids ==> Tree(s.kids[k]) && s.dict !in Objects(s.kids[k]))
      && (forall j, k :: j in s.kids && k in s.kids && j != k ==> Objects(s.kids[j]) !! Objects(s.kids[k]))
  }

  ghost predicate Forest(kids: map<string, Shape>) {
    && (forall k :: k in kids ==> Tree(kids[k]))
    && (forall j, k :: j in kids && k in kids && j != k ==> Objects(kids[j]) !! Objects(kids[k]))
  }

  ghost predicate Is(j: Json, s: Shape) {
    match s
    case Leaf(v) => j == Atom(v) && !v.Dict?
    case Branch(d, _) => j == Ref(d)
  }

  /** The heap holds the tree. */
  ghost predicate Holds(s: Shape)
    reads Objects(s)
  {
    s.Branch? ==>
      && s.dict.fields.Keys == s.kids.Keys
      && forall k :: k in s.kids ==> Is(s.dict.fields[k], s.kids[k]) && Holds(s.kids[k])
  }

  ghost predicate HoldsKids(fields: map<string, Json>, kids: map<string, Shape>)
    reads ObjectsOf(kids)
  {
    fields.Keys == kids.Keys && forall k :: k in kids ==> Is(fields[k], kids[k]) && Holds(kids[k])
  }

  /** The value a tree stands for. */
  ghost function Abs(s: Shape): Value {
    match s
    case Leaf(v) => v
    case Branch(_, kids) => Dict(map k | k in kids :: Abs(kids[k]))
  }

  ghost function AbsKids(kids: map<string, Shape>): Payload {
    map k | k in kids :: Abs(kids[k])
  }

  /** One more kid, disjoint from the others. */
  lemma KidAdded(fields: map<string, Json>, kids: map<string, Shape>, k: string, child: Json, s: Shape)
    requires HoldsKids(fields, kids) && Forest(kids) && k !in kids
    requires Is(child, s) && Tree(s) && Holds(s) && Objects(s) !! ObjectsOf(kids)
    ensures HoldsKids(fields[k := child], kids[k := s]) && Forest(kids[k := s])
    ensures ObjectsOf(kids[k := s]) == ObjectsOf(kids) + Objects(s)
  {
    hide Holds, Tree, Objects, Is;
    forall j | j in kids ensures Objects(kids[j]) <= ObjectsOf(kids) {
    }
    assert kids[k := s][k] == s;
    assert forall j :: j in kids ==> kids[k := s][j] == kids[j];
    forall d | d in ObjectsOf(kids) + Objects(s) ensures d in ObjectsOf(kids[k := s]) {
      if d in ObjectsOf(kids) {
        var j :| j in kids && d in Objects(kids[j]);
        assert d in Objects(kids[k := s][j]);
      }
    }
  }

  /** A new dict over a forest. */
  lemma BranchMade(d: PyDict, kids: map<string, Shape>)
    requires HoldsKids(d.fields, kids) && Forest(kids) && d !in ObjectsOf(kids)
    ensures var s := Branch(d, kids);
            Tree(s) && Holds(s) && Objects(s) == {d} + ObjectsOf(kids) && Abs(s) == Dict(AbsKids(kids))
  {
    assert forall k :: k in kids ==> Objects(kids[k]) <= ObjectsOf(kids);
  }

  /** A fresh tree for a value, as converting an evaluation result builds it. */
  method Build(v: Value) returns (j: Json, ghost s: Shape)
    ensures fresh(Objects(s)) && allocated(Objects(s)) && Is(j, s) && Tree(s) && Holds(s) && Abs(s) == v
    decreases v
  {
    if !v.Dict? {
      return Atom(v), Leaf(v);
    }
    hide Objects, ObjectsOf, Tree, Forest, Holds, HoldsKids, Abs, AbsKids, Is;
    var fields: map<string, Json> := map[];
    ghost var kids: map<string, Shape> := map[];
    NoKids();
    ghost var own: set<PyDict> := {};
    var todo := v.fields.Keys;
    while todo != {}
      invariant todo <= v.fields.Keys && kids.Keys == v.fields.Keys - todo
      invariant own == ObjectsOf(kids) && fresh(own) && Forest(kids) && HoldsKids(fields, kids)
      invariant forall k :: k in kids ==> Abs(kids[k]) == v.fields[k]
      decreases todo
    {
      var k :| k in todo;
      var child: Json;
      ghost var shape: Shape;
      child, shape := Build(v.fields[k]);
      KidAdded(fields, kids, k, child, shape);
      fields, kids, own := fields[k := child], kids[k := shape], own + Objects(shape);
      todo := todo - {k};
    }
    var d := new PyDict(fields);
    BranchMade(d, kids);
    RefIs(d, kids);
    SameValues(kids, v.fields);
    j, s := Ref(d), Branch(d, kids);
  }

  lemma NoKids()
    ensures HoldsKids(map[], map[]) && Forest(map[]) && ObjectsOf(map[]) == {}
  {
  }

  lemma RefIs(d: PyDict, kids: map<string, Shape>)
    ensures Is(Ref(d), Branch(d, kids))
  {
  }

  lemma SameValues(kids: map<string, Shape>, fields: Payload)
    requires kids.Keys == fields.Keys && forall k :: k in kids ==> Abs(kids[k]) == fields[k]
    ensures AbsKids(kids) == fields
  {
  }

  /** What holding a branch means. */
  lemma HeldKids(j: Json, s: Shape)
    requires Is(j, s) && Tree(s) && Holds(s) && j.Ref?
    ensures s.Branch? && s.dict == j.dict && HoldsKids(j.dict.fields, s.kids) && Forest(s.kids)
    ensures j.dict !in ObjectsOf(s.kids) && Objects(s) == {j.dict} + ObjectsOf(s.kids)
    ensures forall k :: k in s.kids ==> Objects(s.kids[k]) <= ObjectsOf(s.kids)
    ensures Abs(s) == Dict(AbsKids(s.kids))
  {
  }

  lemma HeldKid(fields: map<string, Json>, kids: map<string, Shape>, k: string)
    requires HoldsKids(fields, kids) && Forest(kids)
    ensures k in fields <==> k in kids
    ensures k in kids ==> Is(fields[k], kids[k]) && Tree(kids[k]) && Holds(kids[k])
  {
  }

  lemma HeldAtom(j: Json, s: Shape)
    requires Is(j, s) && j.Atom?
    ensures s == Leaf(j.value) && !j.value.Dict? && Objects(s) == {} && Tree(s) && Holds(s) && Abs(s) == j.value
  {
  }

  lemma AbsByKey(kids: map<string, Shape>)
    ensures AbsKids(kids).Keys == kids.Keys && forall k :: k in kids ==> AbsKids(kids)[k] == Abs(kids[k])
  {
  }

  /** A deep copy shares no dict with the original. */
  method DeepCopy(j: Json, ghost s: Shape) returns (copy: Json, ghost c: Shape)
    requires Is(j, s) && Tree(s) && Holds(s)
    ensures fresh(Objects(c)) && allocated(Objects(c)) && Is(copy, c) && Tree(c) && Holds(c) && Abs(c) == Abs(s)
    decreases s
  {
    hide Objects, ObjectsOf, Tree, Forest, Holds, HoldsKids, Abs, AbsKids, Is;
    if j.Atom? {
      HeldAtom(j, s);
      return j, s;
    }
    HeldKids(j, s);
    var source := j.dict.fields;
    var fields: map<string, Json> := map[];
    ghost var kids: map<string, Shape> := map[];
    NoKids();
    ghost var own: set<PyDict>, original := {}, ObjectsOf(s.kids);
    var todo := source.Keys;
    HeldKeys(source, s.kids);
    while todo != {}
      invariant todo <= s.kids.Keys && kids.Keys == s.kids.Keys - todo
      invariant allocated(original) && original == ObjectsOf(s.kids) && HoldsKids(source, s.kids)
      invariant own == ObjectsOf(kids) && fresh(own) && Forest(kids) && HoldsKids(fields, kids)
      invariant forall k :: k in kids ==> Abs(kids[k]) == Abs(s.kids[k])
      decreases todo
    {
      var k :| k in todo;
      HeldKid(source, s.kids, k);
      var child: Json;
      ghost var shape: Shape;
      child, shape := DeepCopy(source[k], s.kids[k]);
      KidAdded(fields, kids, k, child, shape);
      fields, kids, own := fields[k := child], kids[k := shape], own + Objects(shape);
      todo := todo - {k};
    }
    var d := new PyDict(fields);
    BranchMade(d, kids);
    RefIs(d, kids);
    AbsByKey(s.kids);
    SameValues(kids, AbsKids(s.kids));
    copy, c := Ref(d), Branch(d, kids);
  }

  lemma HeldKeys(fields: map<string, Json>, kids: map<string, Shape>)
    requires HoldsKids(fields, kids)
    ensures fields.Keys == kids.Keys
  {
  }

  /** The subtree a path of dict keys leads to. */
  ghost function At(s: Shape, p: Path): Option<Shape>
    decreases |p|
  {
    if p == [] then Some(s)
    else if s.Branch? && p[0] in s.kids then At(s.kids[p[0]], p[1..])
    else None
  }

  /** The tree with another subtree at an existing dict's key. */
  ghost function PutShape(s: Shape, p: Path, x: Shape): Shape
    requires p != []
    decreases |p|
  {
    if s.Leaf? then s
    else if |p| == 1 then Branch(s.dict, s.kids[p[0] := x])
    else if p[0] in s.kids then Branch(s.dict, s.kids[p[0] := PutShape(s.kids[p[0]], p[1..], x)])
    else s
  }

  /** In values, replacing a subtree is a write at its path. */
  lemma {:induction false} PutShapeIsPut(s: Shape, p: Path, k: string, x: Shape)
    requires s.Branch? && At(s, p).Some? && At(s, p).value.Branch?
    ensures var s' := PutShape(s, p + [k], x);
            s'.Branch? && s'.dict == s.dict && PutPath(AbsKids(s.kids), p + [k], Abs(x)) == Some(AbsKids(s'.kids))
    decreases |p|
  {
    if p == [] {
      assert AbsKids(s.kids[k := x]) == AbsKids(s.kids)[k := Abs(x)];
    } else {
      var kid := s.kids[p[0]];
      PutShapeIsPut(kid, p[1..], k, x);
      assert (p + [k])[1..] == p[1..] + [k];
      var kid' := PutShape(kid, p[1..] + [k], x);
      assert Abs(kid) == Dict(AbsKids(kid.kids)) && Abs(kid') == Dict(AbsKids(kid'.kids));
      assert AbsKids(s.kids[p[0] := kid']) == AbsKids(s.kids)[p[0] := Abs(kid')];
    }
  }

  lemma {:induction false} AtIsLookup(s: Shape, p: Path)
    requires At(s, p).Some?
    ensures Lookup(Abs(s), p) == Some(Abs(At(s, p).value))
    decreases |p|
  {
    if p != [] {
      AtIsLookup(s.kids[p[0]], p[1..]);
    }
  }

  lemma {:induction false} AtSplit(s: Shape, p: Path, k: string)
    requires At(s, p).Some? && At(s, p).value.Branch?
    ensures At(s, p + [k]) == if k in At(s, p).value.kids then Some(At(s, p).value.kids[k]) else None
    decreases |p|
  {
    if p == [] {
      assert (p + [k])[1..] == [];
    } else {
      AtSplit(s.kids[p[0]], p[1..], k);
      assert (p + [k])[1..] == p[1..] + [k];
    }
  }

  lemma {:induction false} AtPut(s: Shape, p: Path, k: string, x: Shape)
    requires At(s, p).Some? && At(s, p).value.Branch?
    ensures At(PutShape(s, p + [k], x), p + [k]) == Some(x)
    decreases |p|
  {
    if p == [] {
      assert (p + [k])[1..] == [];
    } else {
      AtPut(s.kids[p[0]], p[1..], k, x);
      assert (p + [k])[1..] == p[1..] + [k];
    }
  }

  /** Making an empty dict where there is nothing or null does not change what the whole write does. */
  lemma {:induction false} EmptyDictFirst(fields: Payload, p: Path, k: string, rest: Path, v: Value)
    requires rest != [] && PutPath(fields, p + [k], Dict(map[])).Some?
    requires var there := Lookup(Dict(fields), p + [k]); there.None? || there.value.Null?
    ensures PutPath(PutPath(fields, p + [k], Dict(map[])).value, p + [k] + rest, v)
            == PutPath(fields, p + [k] + rest, v)
    decreases |p|
  {
    var path := p + [k] + rest;
    if p == [] {
      assert path[1..] == rest && (p + [k])[1..] == [];
      var put := PutPath(map[], rest, v);
      if put.Some? {
        SetTwice(fields, k, Dict(map[]), Dict(put.value));
      }
    } else {
      var child := ChildOf(fields, p[0]);
      assert (p + [k])[1..] == p[1..] + [k] && path[1..] == p[1..] + [k] + rest;
      var inner := if child.Dict? then child.fields else map[];
      EmptyDictFirst(inner, p[1..], k, rest, v);
      var made := PutPath(inner, p[1..] + [k], Dict(map[]));
      var put := PutPath(inner, path[1..], v);
      if put.Some? {
        SetTwice(fields, p[0], Dict(made.value), Dict(put.value));
      }
    }
  }

  lemma SetTwice(fields: Payload, k: string, a: Value, b: Value)
    ensures fields[k := a][k := b] == fields[k := b]
  {
  }

  /** Something other than a dict or null in the way fails the write. */
  lemma {:induction false} BlockedFails(fields: Payload, p: Path, k: string, rest: Path, v: Value)
    requires rest != [] && Lookup(Dict(fields), p + [k]).Some?
    requires var there := Lookup(Dict(fields), p + [k]).value; !there.Null? && !there.Dict?
    ensures PutPath(fields, p + [k] + rest, v).None?
    decreases |p|
  {
    var path := p + [k] + rest;
    if p == [] {
      assert path[1..] == rest && (p + [k])[1..] == [];
    } else {
      assert (p + [k])[1..] == p[1..] + [k] && path[1..] == p[1..] + [k] + rest;
      BlockedFails(ChildOf(fields, p[0]).fields, p[1..], k, rest, v);
    }
  }

  lemma {:induction false} AtIsInside(s: Shape, p: Path)
    requires At(s, p).Some?
    ensures Objects(At(s, p).value) <= Objects(s)
    decreases |p|
  {
    if p != [] {
      AtIsInside(s.kids[p[0]], p[1..]);
    }
  }

  /** A snapshot of dict contents. */
  type Store = map<PyDict, map<string, Json>>

  ghost function StoreOf(objects: set<PyDict>): Store
    reads objects
  {
    map o | o in objects :: o.fields
  }

  ghost predicate HeldIn(h: Store, s: Shape) {
    s.Branch? ==>
      && s.dict in h && h[s.dict].Keys == s.kids.Keys
      && forall k :: k in s.kids ==> Is(h[s.dict][k], s.kids[k]) && HeldIn(h, s.kids[k])
  }

  lemma {:induction false} HeldInSnapshot(objects: set<PyDict>, s: Shape)
    requires Objects(s) <= objects
    ensures Holds(s) <==> HeldIn(StoreOf(objects), s)
    decreases s
  {
    if s.Branch? {
      forall k | k in s.kids ensures Holds(s.kids[k]) <==> HeldIn(StoreOf(objects), s.kids[k]) {
        assert Objects(s.kids[k]) <= Objects(s);
        HeldInSnapshot(objects, s.kids[k]);
      }
    }
  }

  /** A tree none of whose dicts changed is still held. */
  lemma {:induction false} StillHeld(h: Store, h': Store, s: Shape)
    requires HeldIn(h, s) && forall o :: o in Objects(s) ==> o in h && o in h' && h'[o] == h[o]
    ensures HeldIn(h', s)
    decreases s
  {
    if s.Branch? {
      forall k | k in s.kids ensures HeldIn(h', s.kids[k]) {
        assert Objects(s.kids[k]) <= Objects(s);
        StillHeld(h, h', s.kids[k]);
      }
    }
  }

  /** One key of one dict has been assigned. */
  ghost predicate Assigned(h: Store, h': Store, objects: set<PyDict>, d: PyDict, k: string, j: Json) {
    && objects <= h.Keys && objects <= h'.Keys
    && (d in objects ==> h'[d] == h[d][k := j])
    && forall o :: o in objects && o != d ==> h'[o] == h[o]
  }

  /** Assigning one key of one dict of a tree replaces one subtree. */
  lemma {:induction false} Written(h: Store, h': Store, s: Shape, p: Path, d: PyDict, k: string, j: Json, x: Shape)
    requires s.Branch? && Tree(s) && HeldIn(h, s) && At(s, p).Some? && At(s, p).value.Branch?
             && At(s, p).value.dict == d
    requires Assigned(h, h', Objects(s), d, k, j)
    requires Is(j, x) && Tree(x) && HeldIn(h', x) && Objects(x) !! Objects(s)
    ensures var s' := PutShape(s, p + [k], x);
            Tree(s') && HeldIn(h', s') && Objects(s') <= Objects(s) + Objects(x)
    decreases |p|
  {
    hide Objects, Tree, HeldIn, Is;
    if p == [] {
      WrittenHere(h, h', s, d, k, j, x);
    } else {
      var kid := s.kids[p[0]];
      assert (p + [k])[1..] == p[1..] + [k];
      KidOf(h, s, p[0]);
      AtIsInside(kid, p[1..]);
      DictInside(At(kid, p[1..]).value);
      Written(h, h', kid, p[1..], d, k, j, x);
      PutKeepsRoot(kid, p[1..] + [k], x);
      WrittenBelow(h, h', s, p[0], PutShape(kid, p[1..] + [k], x), x, d, k, j);
    }
  }

  lemma KidOf(h: Store, s: Shape, m: string)
    requires s.Branch? && Tree(s) && HeldIn(h, s) && m in s.kids
    ensures Tree(s.kids[m]) && HeldIn(h, s.kids[m]) && Objects(s.kids[m]) <= Objects(s)
  {
  }

  lemma DictInside(s: Shape)
    ensures s.Branch? ==> s.dict in Objects(s)
  {
  }

  lemma PutKeepsRoot(s: Shape, p: Path, x: Shape)
    requires p != [] && s.Branch?
    ensures PutShape(s, p, x).Branch? && PutShape(s, p, x).dict == s.dict
  {
  }

  lemma WrittenHere(h: Store, h': Store, s: Shape, d: PyDict, k: string, j: Json, x: Shape)
    requires s.Branch? && Tree(s) && HeldIn(h, s) && s.dict == d && Assigned(h, h', Objects(s), d, k, j)
    requires Is(j, x) && Tree(x) && HeldIn(h', x) && Objects(x) !! Objects(s)
    ensures var s' := Branch(d, s.kids[k := x]);
            Tree(s') && HeldIn(h', s') && Objects(s') <= Objects(s) + Objects(x)
  {
    forall m | m in s.kids ensures HeldIn(h', s.kids[m]) && Objects(s.kids[m]) <= Objects(s) {
      StillHeld(h, h', s.kids[m]);
    }
  }

  lemma WrittenBelow(h: Store, h': Store, s: Shape, m: string, kid: Shape, x: Shape, d: PyDict, k: string, j: Json)
    requires s.Branch? && Tree(s) && HeldIn(h, s) && m in s.kids && s.kids[m].Branch? && d in Objects(s.kids[m])
    requires Assigned(h, h', Objects(s), d, k, j)
    requires Tree(kid) && HeldIn(h', kid) && kid.Branch? && kid.dict == s.kids[m].dict
    requires Objects(kid) <= Objects(s.kids[m]) + Objects(x) && Objects(x) !! Objects(s)
    ensures var s' := Branch(s.dict, s.kids[m := kid]);
            Tree(s') && HeldIn(h', s') && Objects(s') <= Objects(s) + Objects(x)
  {
    forall n | n in s.kids ensures Objects(s.kids[n]) <= Objects(s) && (n != m ==> HeldIn(h', s.kids[n])) {
      if n != m {
        StillHeld(h, h', s.kids[n]);
      }
    }
  }

  /** The loop of SetNested is at `node`, having made the dicts it found missing. */
  ghost predicate Walking(s: Shape, x: Shape, cur: Shape, node: PyDict, root: PyDict, path: Path, i: nat)
    reads Objects(cur), Objects(x)
  {
    && s.Branch? && cur.Branch? && cur.dict == root && i < |path| && path != []
    && Tree(cur) && Holds(cur) && Tree(x) && Holds(x) && Objects(x) !! Objects(cur)
    && At(cur, path[..i]).Some? && At(cur, path[..i]).value.Branch? && At(cur, path[..i]).value.dict == node
    && PutPath(AbsKids(cur.kids), path, Abs(x)) == PutPath(AbsKids(s.kids), path, Abs(x))
  }

  /** The node's fields are those of its subtree. */
  lemma WalkedNode(s: Shape, x: Shape, cur: Shape, node: PyDict, root: PyDict, path: Path, i: nat)
    requires Walking(s, x, cur, node, root, path, i)
    ensures var b := At(cur, path[..i]).value;
            && HoldsKids(node.fields, b.kids) && node in Objects(cur)
  {
    hide PutPath, AbsKids;
    HoldsAt(cur, path[..i]);
    AtIsInside(cur, path[..i]);
    DictInside(At(cur, path[..i]).value);
  }

  lemma {:induction false} HoldsAt(s: Shape, p: Path)
    requires Holds(s) && At(s, p).Some?
    ensures Holds(At(s, p).value)
    decreases |p|
  {
    if p != [] {
      HoldsAt(s.kids[p[0]], p[1..]);
    }
  }

  /** Something in the way: the write as a whole fails. */
  lemma WalkBlocked(s: Shape, x: Shape, cur: Shape, node: PyDict, root: PyDict, path: Path, i: nat)
    requires Walking(s, x, cur, node, root, path, i) && i < |path| - 1
    requires path[i] in node.fields && node.fields[path[i]].Atom? && !node.fields[path[i]].value.Null?
    ensures PutPath(AbsKids(s.kids), path, Abs(x)).None?
  {
    WalkedNode(s, x, cur, node, root, path, i);
    hide PutPath, AbsKids, Tree;
    var p, k := path[..i], path[i];
    var b := At(cur, p).value;
    assert Is(node.fields[k], b.kids[k]);
    AtSplit(cur, p, k);
    AtIsLookup(cur, p + [k]);
    assert path == p + [k] + path[i + 1..];
    AbsOfBranch(cur);
    BlockedFails(AbsKids(cur.kids), p, k, path[i + 1..], Abs(x));
  }

  lemma AbsOfBranch(s: Shape)
    ensures s.Branch? ==> Abs(s) == Dict(AbsKids(s.kids))
  {
  }

  /** A dict in the way: walk on into it. */
  lemma WalkInto(s: Shape, x: Shape, cur: Shape, node: PyDict, root: PyDict, path: Path, i: nat)
    requires Walking(s, x, cur, node, root, path, i) && i < |path| - 1
    requires path[i] in node.fields && node.fields[path[i]].Ref?
    ensures Walking(s, x, cur, node.fields[path[i]].dict, root, path, i + 1)
  {
    WalkedNode(s, x, cur, node, root, path, i);
    hide PutPath, AbsKids, Tree;
    var p, k := path[..i], path[i];
    assert Is(node.fields[k], At(cur, p).value.kids[k]);
    AtSplit(cur, p, k);
    assert path[..i + 1] == p + [k];
  }

  /** Values after one key has been assigned. */
  lemma WalkWrites(s: Shape, x: Shape, cur: Shape, path: Path, i: nat, y: Shape)
    requires s.Branch? && cur.Branch? && i < |path|
    requires At(cur, path[..i]).Some? && At(cur, path[..i]).value.Branch?
    requires PutPath(AbsKids(cur.kids), path, Abs(x)) == PutPath(AbsKids(s.kids), path, Abs(x))
    ensures var cur' := PutShape(cur, path[..i] + [path[i]], y);
            && cur'.Branch? && cur'.dict == cur.dict
            && (i == |path| - 1 && y == x ==> PutPath(AbsKids(s.kids), path, Abs(x)) == Some(AbsKids(cur'.kids)))
            && (i < |path| - 1 && y.Branch? && y.kids == map[]
                && (path[i] !in At(cur, path[..i]).value.kids
                    || At(cur, path[..i]).value.kids[path[i]] == Leaf(Null)) ==>
                  && PutPath(AbsKids(cur'.kids), path, Abs(x)) == PutPath(AbsKids(s.kids), path, Abs(x))
                  && At(cur', path[..i + 1]) == Some(y))
  {
    hide PutPath, AbsKids, At, PutShape, Abs;
    var p, k := path[..i], path[i];
    PutShapeIsPut(cur, p, k, y);
    AtPut(cur, p, k, y);
    AtSplit(cur, p, k);
    assert path[..i + 1] == p + [k];
    if i == |path| - 1 {
      assert path == p + [k];
    } else if y.Branch? && y.kids == map[] && (k !in At(cur, p).value.kids || At(cur, p).value.kids[k] == Leaf(Null)) {
      assert path == p + [k] + path[i + 1..];
      NothingThere(cur, p, k);
      EmptyAbs(y);
      EmptyDictFirst(AbsKids(cur.kids), p, k, path[i + 1..], Abs(x));
    }
  }

  lemma EmptyAbs(y: Shape)
    requires y.Branch? && y.kids == map[]
    ensures Abs(y) == Dict(map[])
  {
  }

  lemma {:induction false} NothingThere(s: Shape, p: Path, k: string)
    requires s.Branch? && At(s, p).Some? && At(s, p).value.Branch?
    requires k !in At(s, p).value.kids || At(s, p).value.kids[k] == Leaf(Null)
    ensures var there := Lookup(Dict(AbsKids(s.kids)), p + [k]); there.None? || there.value.Null?
    decreases |p|
  {
    if p == [] {
      assert (p + [k])[1..] == [];
    } else {
      assert (p + [k])[1..] == p[1..] + [k];
      AbsOfBranch(s.kids[p[0]]);
      NothingThere(s.kids[p[0]], p[1..], k);
    }
  }

  /** Assigns one key of a dict of a tree. */
  method AssignKey(node: PyDict, key: string, value: Json, ghost s: Shape, ghost p: Path, ghost y: Shape)
    returns (ghost s': Shape)
    requires s.Branch? && Tree(s) && Holds(s) && At(s, p).Some? && At(s, p).value.Branch? && At(s, p).value.dict == node
    requires Is(value, y) && Tree(y) && Holds(y) && Objects(y) !! Objects(s)
    modifies node
    ensures node.fields == old(node.fields)[key := value]
    ensures s' == PutShape(s, p + [key], y) && Tree(s') && Holds(s') && Objects(s') <= Objects(s) + Objects(y)
  {
    hide Tree, PutShape, At, Holds, HeldIn, Objects, Is;
    ghost var all := Objects(s) + Objects(y);
    AtIsInside(s, p);
    DictInside(At(s, p).value);
    ghost var h := StoreOf(all);
    HeldInSnapshot(all, s);
    node.fields := node.fields[key := value];
    ghost var h' := StoreOf(all);
    HeldInSnapshot(all, y);
    Written(h, h', s, p, node, key, value, y);
    s' := PutShape(s, p + [key], y);
    HeldInSnapshot(all, s');
  }

  lemma NewBranch(d: PyDict)
    requires d.fields == map[]
    ensures var y := Branch(d, map[]); Tree(y) && Holds(y) && Objects(y) == {d} && Is(Ref(d), y)
  {
  }

  lemma WalkStarts(root: PyDict, path: Path, s: Shape, x: Shape)
    requires path != [] && s.Branch? && s.dict == root && Tree(s) && Holds(s) && Tree(x) && Holds(x)
             && Objects(x) !! Objects(s)
    ensures Walking(s, x, s, root, root, path, 0)
  {
    assert path[..0] == [];
  }

  lemma NullOrMissing(fields: map<string, Json>, kids: map<string, Shape>, k: string)
    requires HoldsKids(fields, kids) && (k !in fields || fields[k] == Atom(Null))
    ensures k !in kids || kids[k] == Leaf(Null)
  {
    assert k in kids ==> Is(fields[k], kids[k]);
  }

  /** Walks from the root along all but the last segment, making empty dicts where missing, and assigns at the leaf. */
  method SetNested(root: PyDict, path: Path, value: Json, ghost s: Shape, ghost x: Shape)
    returns (ok: bool, ghost after: Shape)
    requires path != [] && s.Branch? && s.dict == root && Tree(s) && Holds(s)
    requires Is(value, x) && Tree(x) && Holds(x) && Objects(x) !! Objects(s)
    requires allocated(Objects(s)) && allocated(Objects(x))
    modifies Objects(s)
    ensures ok <==> PutPath(AbsKids(s.kids), path, Abs(x)).Some?
    ensures ok ==> after.Branch? && after.dict == root && Tree(after) && Holds(after)
                   && PutPath(AbsKids(s.kids), path, Abs(x)) == Some(AbsKids(after.kids))
    ensures fresh(Objects(after) - Objects(s) - Objects(x))
  {
    hide PutPath, AbsKids, Tree, At, PutShape, Abs, Objects, Is, Holds;
    var node, i := root, 0;
    ghost var cur, own := s, Objects(s);
    WalkStarts(root, path, s, x);
    after := s;
    while i < |path| - 1
      invariant i <= |path| - 1 && Walking(s, x, cur, node, root, path, i)
      invariant own == Objects(cur) && fresh(own - Objects(s)) && allocated(Objects(x)) && allocated(own)
    {
      var segment := path[i];
      WalkedNode(s, x, cur, node, root, path, i);
      if segment !in node.fields || node.fields[segment] == Atom(Null) {
        NullOrMissing(node.fields, At(cur, path[..i]).value.kids, segment);
        var newDict := new PyDict(map[]);
        NewBranch(newDict);
        WalkWrites(s, x, cur, path, i, Branch(newDict, map[]));
        cur := AssignKey(node, segment, Ref(newDict), cur, path[..i], Branch(newDict, map[]));
        own := Objects(cur);
        node := newDict;
      } else if node.fields[segment].Ref? {
        WalkInto(s, x, cur, node, root, path, i);
        node := node.fields[segment].dict;
      } else {
        WalkBlocked(s, x, cur, node, root, path, i);
        return false, s;
      }
      i := i + 1;
    }
    WalkedNode(s, x, cur, node, root, path, i);
    WalkWrites(s, x, cur, path, i, x);
    after := AssignKey(node, path[i], value, cur, path[..i], x);
    ok := true;
  }
}
