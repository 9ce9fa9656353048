/** The variable-setting node: dotted names, and updates accumulated beside a state that is never touched. */
module SetVariable {
  import opened Workflow
  import opened StatePaths
  import opened JsonTrees

  datatype Target = StateTarget | ProjectTarget

  predicate IsSpace(c: char) {
    c in {' ', '\t', '\n', '\r'} || c as int in {0x0B, 0x0C, 0x1C, 0x1D, 0x1E, 0x1F, 0x85, 0xA0, 0x1680, 0x2028, 0x2029,
                                                 0x202F, 0x205F, 0x3000}
    || 0x2000 <= c as int <= 0x200A
  }

  /** Nothing left after stripping: a placeholder row. */
  predicate Blank(name: string) {
    forall i :: 0 <= i < |name| ==> IsSpace(name[i])
  }

  /** The white space stripped, by code point. */
  lemma SpacesByCode(c: char)
    ensures IsSpace(c) <==>
            var n := c as int;
            || 9 <= n <= 13 || 28 <= n <= 32 || n == 133 || n == 160 || n == 5760 || 8192 <= n <= 8202
            || 8232 <= n <= 8233 || n == 8239 || n == 8287 || n == 12288
  {
  }

  predicate IsLetter(c: char) {
    'a' <= c <= 'z' || 'A' <= c <= 'Z' || c == '_'
  }

  predicate IsIdentifier(s: string) {
    s != [] && IsLetter(s[0]) && forall i :: 0 <= i < |s| ==> IsLetter(s[i]) || '0' <= s[i] <= '9'
  }

  /** Identifiers by code point: digits, letters and the underscore, no digit in front. */
  lemma IdentifierByCode(s: string)
    ensures IsIdentifier(s) <==>
            && |s| > 0 && !(48 <= s[0] as int <= 57)
            && forall c :: c in s ==> var n := c as int; 48 <= n <= 57 || 65 <= n <= 90 || n == 95 || 97 <= n <= 122
  {
    forall i | 0 <= i < |s|
      ensures s[i] in s
      ensures IsLetter(s[i]) || '0' <= s[i] <= '9' <==>
              var n := s[i] as int; 48 <= n <= 57 || 65 <= n <= 90 || n == 95 || 97 <= n <= 122
      ensures IsLetter(s[i]) ==> !(48 <= s[i] as int <= 57)
    {
    }
  }

  /**
   What the segment pattern accepts: an identifier, and one with a line break after it, since `$` matches before that.
   */
  predicate IsSegment(s: string) {
    IsIdentifier(s) || (s != [] && s[|s| - 1] == '\n' && IsIdentifier(s[..|s| - 1]))
  }

  /** The pieces between separators; one piece when there is none. */
  function Split(s: string, sep: char): (r: seq<string>)
    ensures r != []
  {
    if s == [] then [[]]
    else
      var rest := Split(s[1..], sep);
      if s[0] == sep then [[]] + rest else [[s[0]] + rest[0]] + rest[1..]
  }

  function Join(parts: seq<string>, sep: char): string
    requires parts != []
  {
    if |parts| == 1 then parts[0] else parts[0] + [sep] + Join(parts[1..], sep)
  }

  /** Splitting loses nothing, no piece holds a separator, and the first piece comes first. */
  lemma {:induction false} SplitThenJoin(s: string, sep: char)
    ensures Join(Split(s, sep), sep) == s && Split(s, sep)[0] <= s
    ensures forall i :: 0 <= i < |Split(s, sep)| ==> sep !in Split(s, sep)[i]
  {
    if s != [] {
      SplitThenJoin(s[1..], sep);
      var rest := Split(s[1..], sep);
      assert s == [s[0]] + s[1..];
      if s[0] == sep {
        assert ([[]] + rest)[1..] == rest;
        assert [] + [sep] + Join(rest, sep) == s;
      } else {
        var first := [s[0]] + rest[0];
        assert ([first] + rest[1..])[1..] == rest[1..];
        if |rest| > 1 {
          assert first + [sep] + Join(rest[1..], sep) == [s[0]] + (rest[0] + [sep] + Join(rest[1..], sep));
        }
      }
    }
  }

  /** A text without separator is one piece. */
  lemma {:induction false} OnePiece(s: string, sep: char)
    requires sep !in s
    ensures Split(s, sep) == [s]
  {
    if s != [] {
      OnePiece(s[1..], sep);
      assert [s[0]] + s[1..] == s;
    }
  }

  lemma {:induction false} SplitAtSeparator(first: string, sep: char, rest: string)
    requires sep !in first
    ensures Split(first + [sep] + rest, sep) == [first] + Split(rest, sep)
  {
    var s := first + [sep] + rest;
    if first == [] {
      assert s[1..] == rest;
    } else {
      assert s[1..] == first[1..] + [sep] + rest;
      SplitAtSeparator(first[1..], sep, rest);
      assert [first[0]] + first[1..] == first;
    }
  }

  /** Joining loses nothing when no piece holds a separator. */
  lemma {:induction false} JoinThenSplit(parts: seq<string>, sep: char)
    requires parts != [] && forall i :: 0 <= i < |parts| ==> sep !in parts[i]
    ensures Split(Join(parts, sep), sep) == parts
  {
    if |parts| == 1 {
      OnePiece(parts[0], sep);
    } else {
      JoinThenSplit(parts[1..], sep);
      SplitAtSeparator(parts[0], sep, Join(parts[1..], sep));
    }
  }

  const PROJECT_PREFIX := "project."
  const STATE_PREFIX := "state."

  function Remainder(name: string): string {
    if PROJECT_PREFIX <= name then name[|PROJECT_PREFIX|..]
    else if STATE_PREFIX <= name then name[|STATE_PREFIX|..]
    else name
  }

  /** The target and the path a variable name denotes; None when a segment is no identifier. */
  function ParseVariableTarget(name: string): Option<(Target, Path)> {
    var target := if PROJECT_PREFIX <= name then ProjectTarget else StateTarget;
    var segments := Split(Remainder(name), '.');
    if forall i :: 0 <= i < |segments| ==> IsSegment(segments[i]) then Some((target, segments)) else None
  }

  /** The names of a path in a tree: the project's with its prefix, the state's with its own or without any. */
  ghost predicate Denotes(name: string, target: Target, path: Path) {
    && path != [] && (forall i :: 0 <= i < |path| ==> IsSegment(path[i]) && '.' !in path[i])
    && (if "project." <= name then target == ProjectTarget && name == "project." + Join(path, '.')
        else if "state." <= name then target == StateTarget && name == "state." + Join(path, '.')
        else target == StateTarget && name == Join(path, '.'))
  }

  /** A parsed name denotes its target and path, and a name that does not parse denotes nothing. */
  lemma ParsedIsDotted(name: string, target: Target, path: Path)
    ensures ParseVariableTarget(name) == Some((target, path)) <==> Denotes(name, target, path)
  {
    hide IsSegment;
    SplitThenJoin(Remainder(name), '.');
    if Denotes(name, target, path) {
      JoinThenSplit(path, '.');
    }
  }

  lemma {:induction false} JoinHolds(parts: seq<string>, sep: char, c: char)
    requires parts != [] && c != sep
    ensures c in Join(parts, sep) <==> exists i :: 0 <= i < |parts| && c in parts[i]
  {
    if |parts| > 1 {
      var rest := parts[1..];
      JoinHolds(rest, sep, c);
      forall i | 0 <= i < |rest| ensures rest[i] == parts[i + 1] {
      }
    }
  }

  /** Among accepted segments those that are no identifiers are those with a line break. */
  lemma SegmentIsIdentifier(s: string)
    requires IsSegment(s)
    ensures IsIdentifier(s) <==> '\n' !in s
  {
    if s[|s| - 1] == '\n' {
      assert '\n' in s;
    }
  }

  /** A parsed name has identifiers for segments exactly when it holds no line break. */
  lemma IdentifiersIffNoLineBreak(name: string)
    requires ParseVariableTarget(name).Some?
    ensures var path := ParseVariableTarget(name).value.1;
            (forall i :: 0 <= i < |path| ==> IsIdentifier(path[i])) <==> '\n' !in name
  {
    hide IsSegment, IsIdentifier, Split, Join;
    var path, remainder := ParseVariableTarget(name).value.1, Remainder(name);
    SplitThenJoin(remainder, '.');
    JoinHolds(path, '.', '\n');
    forall i | 0 <= i < |path| ensures IsIdentifier(path[i]) <==> '\n' !in path[i] {
      SegmentIsIdentifier(path[i]);
    }
    assert name == name[..|name| - |remainder|] + remainder;
    assert '\n' !in PROJECT_PREFIX && '\n' !in STATE_PREFIX;
  }

  /** The failing case: a name that ends in a line break is accepted, and its segment is no identifier. */
  lemma LineBreakIsAccepted()
    ensures ParseVariableTarget("a\n") == Some((StateTarget, ["a\n"])) && !IsIdentifier("a\n")
  {
    OnePiece("a\n", '.');
    assert "a\n"[..1] == "a";
    assert IsSegment("a\n");
  }

  /** A configured update: the name, and what its expression evaluates to, if it does. */
  datatype Update = Update(variableName: string, resolved: Option<Value>)

  datatype Planned = Skipped | Refused | Write(target: Target, assignment: Assignment)

  function Plan(u: Update): (r: Planned)
    ensures r.Write? ==> r.assignment.path != []
  {
    if Blank(u.variableName) then Skipped
    else
      var parsed := ParseVariableTarget(u.variableName);
      if parsed.None? || u.resolved.None? then Refused
      else Write(parsed.value.0, Assignment(parsed.value.1, u.resolved.value))
  }

  predicate WhiteSpace(name: string) {
    forall c :: c in name ==> IsSpace(c)
  }

  /**
   What becomes of an update, by its name: skipped when that is white space, refused when it denotes
   no path or its expression fails, and otherwise one write of the resolved value where the name says.
   */
  lemma PlanByName(u: Update)
    ensures Plan(u).Skipped? <==> WhiteSpace(u.variableName)
    ensures Plan(u).Refused? <==>
            && !WhiteSpace(u.variableName)
            && (u.resolved.None? || forall target, path :: !Denotes(u.variableName, target, path))
    ensures forall target, path, v :: Plan(u) == Write(target, Assignment(path, v))
                                      <==> Denotes(u.variableName, target, path) && u.resolved == Some(v)
  {
    hide ParseVariableTarget, Denotes;
    var name := u.variableName;
    assert Blank(name) <==> WhiteSpace(name);
    forall target, path ensures ParseVariableTarget(name) == Some((target, path)) <==> Denotes(name, target, path) {
      ParsedIsDotted(name, target, path);
    }
    forall target, path | Denotes(name, target, path) ensures !Blank(name) {
      NamesAreNotBlank(name, target, path);
    }
    var parsed := ParseVariableTarget(name);
    assert parsed.Some? ==> Denotes(name, parsed.value.0, parsed.value.1);
  }

  lemma {:induction false} LastPieceEnds(parts: seq<string>, sep: char)
    requires parts != []
    ensures var last := parts[|parts| - 1];
            |last| <= |Join(parts, sep)| && Join(parts, sep)[|Join(parts, sep)| - |last|..] == last
  {
    if |parts| > 1 {
      LastPieceEnds(parts[1..], sep);
    }
  }

  lemma NoLetterIsSpace(c: char)
    ensures !(IsLetter(c) && IsSpace(c))
  {
  }

  /** A name of a path has a letter or underscore at the start of its last segment. */
  lemma NamesAreNotBlank(name: string, target: Target, path: Path)
    requires Denotes(name, target, path)
    ensures !Blank(name)
  {
    LastPieceEnds(path, '.');
    var last := path[|path| - 1];
    assert name[|name| - |last|..] == last;
    NoLetterIsSpace(name[|name| - |last|]);
  }

  /** The assignments updates make to one target, in order. */
  function AssignmentsTo(updates: seq<Update>, target: Target): (r: seq<Assignment>)
    ensures Proper(r)
  {
    if updates == [] then []
    else
      var init, last := AssignmentsTo(updates[..|updates| - 1], target), Plan(updates[|updates| - 1]);
      if last.Write? && last.target == target then init + [last.assignment] else init
  }

  /** They are the writes to it, each once and in order. */
  lemma {:induction false} AssignmentsByPosition(updates: seq<Update>, target: Target) returns (at: seq<nat>)
    ensures |at| == |AssignmentsTo(updates, target)| && forall j, k :: 0 <= j < k < |at| ==> at[j] < at[k]
    ensures forall k :: 0 <= k < |at| ==>
                          at[k] < |updates| && Plan(updates[at[k]]) == Write(target, AssignmentsTo(updates, target)[k])
    ensures forall i :: 0 <= i < |updates| && Plan(updates[i]).Write? && Plan(updates[i]).target == target ==> i in at
  {
    hide Plan;
    at := [];
    if updates != [] {
      var last := |updates| - 1;
      at := AssignmentsByPosition(updates[..last], target);
      if Plan(updates[last]).Write? && Plan(updates[last]).target == target {
        at := at + [last];
      }
    }
  }

  /**
   A tree after the updates, read at a path: what the last update whose name denotes a comparable path
   resolved to, if it named this one, and what it held before if no update named a comparable path.
   */
  ghost predicate ReadsBack(before: Payload, written: Payload, updates: seq<Update>, target: Target) {
    forall q: Path ::
      && (NotNamedFrom(updates, 0, target, q) ==> Lookup(Dict(before + written), q) == Lookup(Dict(before), q))
      && (forall k :: 0 <= k < |updates| && Denotes(updates[k].variableName, target, q) && updates[k].resolved.Some?
                      && NotNamedFrom(updates, k + 1, target, q)
                      ==> Lookup(Dict(before + written), q) == Some(updates[k].resolved.value))
  }

  /** No update from the n-th names a path of the tree that is comparable to q. */
  ghost predicate NotNamedFrom(updates: seq<Update>, n: nat, target: Target, q: Path) {
    forall i, p :: n <= i < |updates| && Denotes(updates[i].variableName, target, p) ==> !Comparable(p, q)
  }

  lemma WritesReadBack(before: Payload, updates: seq<Update>, target: Target)
    requires AccumulateAll(before, AssignmentsTo(updates, target)).Some?
    ensures ReadsBack(before, AccumulateAll(before, AssignmentsTo(updates, target)).value, updates, target)
  {
    hide AccumulateAll, Lookup, Plan, Denotes, Comparable;
    var list, written := AssignmentsTo(updates, target), AccumulateAll(before, AssignmentsTo(updates, target)).value;
    var at := AssignmentsByPosition(updates, target);
    forall m | 0 <= m < |list| ensures Denotes(updates[at[m]].variableName, target, list[m].path) {
      PlanByName(updates[at[m]]);
      assert list[m] == Assignment(list[m].path, list[m].value);
    }
    forall q: Path
      ensures NotNamedFrom(updates, 0, target, q) ==> Lookup(Dict(before + written), q) == Lookup(Dict(before), q)
      ensures forall k :: 0 <= k < |updates| && Denotes(updates[k].variableName, target, q) && updates[k].resolved.Some?
                          && NotNamedFrom(updates, k + 1, target, q)
                          ==> Lookup(Dict(before + written), q) == Some(updates[k].resolved.value)
    {
      UpdatedStateReads(before, list, q);
      forall k | 0 <= k < |updates| && Denotes(updates[k].variableName, target, q) && updates[k].resolved.Some?
          && NotNamedFrom(updates, k + 1, target, q)
        ensures Lookup(Dict(before + written), q) == Some(updates[k].resolved.value)
      {
        PlanByName(updates[k]);
        assert Plan(updates[k]) == Write(target, Assignment(q, updates[k].resolved.value));
        var m :| 0 <= m < |at| && at[m] == k;
      }
    }
  }

  /** No update is refused, and both accumulations succeed. */
  ghost predicate Succeeds(state: Payload, project: Payload, updates: seq<Update>) {
    && (forall i :: 0 <= i < |updates| ==> !Plan(updates[i]).Refused?)
    && AccumulateAll(state, AssignmentsTo(updates, StateTarget)).Some?
    && AccumulateAll(project, AssignmentsTo(updates, ProjectTarget)).Some?
  }

  function WithoutKey<V>(m: map<string, V>, k: string): map<string, V> {
    map j | j in m && j != k :: m[j]
  }

  lemma SetAfterRemoval<V>(m: map<string, V>, k: string, v: V)
    ensures WithoutKey(m, k)[k := v] == m[k := v]
  {
  }

  /** One kid set apart from the others. */
  lemma KidApart(fields: map<string, Json>, kids: map<string, Shape>, k: string)
    requires HoldsKids(fields, kids) && Forest(kids)
    ensures HoldsKids(WithoutKey(fields, k), WithoutKey(kids, k)) && Forest(WithoutKey(kids, k))
    ensures ObjectsOf(WithoutKey(kids, k)) <= ObjectsOf(kids)
    ensures k in kids ==> Objects(kids[k]) <= ObjectsOf(kids) && Objects(kids[k]) !! ObjectsOf(WithoutKey(kids, k))
    ensures k in kids ==> Is(fields[k], kids[k]) && Tree(kids[k]) && Holds(kids[k])
  {
    hide Objects, Tree, Holds, Is;
    forall d | d in ObjectsOf(WithoutKey(kids, k))
      ensures d in ObjectsOf(kids) && (k in kids ==> d !in Objects(kids[k])) {
      var j :| j in WithoutKey(kids, k) && d in Objects(WithoutKey(kids, k)[j]);
      assert d in Objects(kids[j]);
    }
  }

  lemma AbsWith(kids: map<string, Shape>, k: string, s: Shape)
    ensures AbsKids(kids[k := s]) == AbsKids(kids)[k := Abs(s)]
  {
  }

  /** What the container for a nested write holds. */
  lemma ContainerAbs(j: Json, s: Shape)
    requires Is(j, s)
    ensures j.Atom? ==> Abs(s) == j.value && !Abs(s).Dict?
    ensures j.Ref? ==> s.Branch? && s.dict == j.dict && Abs(s) == Dict(AbsKids(s.kids))
  {
  }

  /**
   One update into an accumulator: a plain assignment, or a nested write into the accumulated dict,
   which starts as a deep copy of the state's. Only accumulated dicts are changed.
   */
  method WriteInto(source: map<string, Json>, ghost src: map<string, Shape>, updates: map<string, Json>,
                   ghost kids: map<string, Shape>, a: Assignment)
    returns (ok: bool, updates': map<string, Json>, ghost kids': map<string, Shape>)
    requires a.path != []
    requires HoldsKids(source, src) && Forest(src) && HoldsKids(updates, kids) && Forest(kids)
    requires allocated(ObjectsOf(src)) && allocated(ObjectsOf(kids))
    modifies ObjectsOf(kids)
    ensures ok <==> Accumulate(AbsKids(src), AbsKids(kids), a).Some?
    ensures ok ==> HoldsKids(updates', kids') && Forest(kids')
                   && Accumulate(AbsKids(src), AbsKids(kids), a) == Some(AbsKids(kids'))
    ensures ok ==> fresh(ObjectsOf(kids') - ObjectsOf(kids)) && allocated(ObjectsOf(kids'))
  {
    hide Objects, ObjectsOf, Tree, Forest, Holds, HoldsKids, Abs, AbsKids, Is, PutPath;
    var top := a.path[0];
    ghost var others, own := WithoutKey(kids, top), ObjectsOf(WithoutKey(kids, top));
    KidApart(updates, kids, top);
    KeysAgree(updates, kids);
    KeysAgree(source, src);
    var x: Json, container: Json;
    ghost var xs: Shape, cs: Shape;
    x, xs := Build(a.value);
    if |a.path| == 1 {
      KidAdded(WithoutKey(updates, top), others, top, x, xs);
      SetAfterRemoval(updates, top, x);
      SetAfterRemoval(kids, top, xs);
      AbsWith(kids, top, xs);
      return true, updates[top := x], kids[top := xs];
    }
    if top in updates {
      container, cs := updates[top], kids[top];
    } else {
      container, cs := FirstContainer(source, src, top);
    }
    ContainerAbs(container, cs);
    if container.Atom? {
      return false, updates, kids;
    }
    ghost var after: Shape;
    label written:
    ok, after := SetNested(container.dict, a.path[1..], x, cs, xs);
    if ok {
      RefIs(container.dict, after.kids);
      BranchAbs(after);
      KidAdded(WithoutKey(updates, top), others, top, container, after);
      SetAfterRemoval(updates, top, container);
      SetAfterRemoval(kids, top, after);
      AbsWith(kids, top, after);
      assert ObjectsOf(kids[top := after]) == own + Objects(after);
      assert Objects(cs) <= ObjectsOf(kids) || fresh(Objects(cs));
      forall o | o in ObjectsOf(kids[top := after]) && o !in ObjectsOf(kids) ensures fresh(o) {
        assert o in Objects(cs) || o in Objects(xs) || fresh@written(o);
      }
    }
    updates', kids' := updates[top := container], kids[top := after];
  }

  lemma BranchAbs(s: Shape)
    requires s.Branch?
    ensures Abs(s) == Dict(AbsKids(s.kids)) && s == Branch(s.dict, s.kids)
  {
  }

  /** A copy of what the state holds at a key, or a new dict where it holds nothing or null. */
  method FirstContainer(source: map<string, Json>, ghost src: map<string, Shape>, top: string)
    returns (container: Json, ghost cs: Shape)
    requires HoldsKids(source, src) && Forest(src)
    ensures fresh(Objects(cs)) && allocated(Objects(cs)) && Is(container, cs) && Tree(cs) && Holds(cs)
    ensures Abs(cs) == if ChildOf(AbsKids(src), top).Null? then Dict(map[]) else ChildOf(AbsKids(src), top)
  {
    hide Objects, ObjectsOf, Tree, Forest, Holds, HoldsKids, Abs, AbsKids, Is;
    KeysAgree(source, src);
    KidApart(source, src, top);
    if top in source {
      ContainerAbs(source[top], src[top]);
    }
    if top in source && source[top] != Atom(Null) {
      container, cs := DeepCopy(source[top], src[top]);
    } else {
      var d := new PyDict(map[]);
      container, cs := Ref(d), Branch(d, map[]);
      NewBranch(d);
      EmptyAbs(cs);
    }
  }

  lemma KeysAgree(fields: map<string, Json>, kids: map<string, Shape>)
    requires HoldsKids(fields, kids)
    ensures fields.Keys == kids.Keys == AbsKids(kids).Keys
    ensures forall k :: k in kids ==> AbsKids(kids)[k] == Abs(kids[k]) && Is(fields[k], kids[k])
  {
  }

  lemma OneMoreUpdate(updates: seq<Update>, i: nat, target: Target)
    requires i < |updates|
    ensures var plan := Plan(updates[i]);
            AssignmentsTo(updates[..i + 1], target) ==
            if plan.Write? && plan.target == target then AssignmentsTo(updates[..i], target) + [plan.assignment]
               else AssignmentsTo(updates[..i], target)
  {
    assert updates[..i + 1][..i] == updates[..i];
  }

  lemma AccumulateOneMore(state: Payload, before: seq<Assignment>, a: Assignment)
    requires Proper(before) && a.path != []
    ensures var acc := AccumulateAll(state, before);
            AccumulateAll(state, before + [a]) == if acc.None? then None else Accumulate(state, acc.value, a)
  {
    assert (before + [a])[..|before|] == before;
  }

  /** A failed accumulation stays failed. */
  lemma {:induction false} FailureStays(state: Payload, updates: seq<Update>, i: nat, target: Target)
    requires i <= |updates| && AccumulateAll(state, AssignmentsTo(updates[..i], target)).None?
    ensures AccumulateAll(state, AssignmentsTo(updates, target)).None?
    decreases |updates| - i
  {
    if i < |updates| {
      OneMoreUpdate(updates, i, target);
      if Plan(updates[i]).Write? && Plan(updates[i]).target == target {
        AccumulateOneMore(state, AssignmentsTo(updates[..i], target), Plan(updates[i]).assignment);
      }
      FailureStays(state, updates, i + 1, target);
    } else {
      assert updates[..i] == updates;
    }
  }

  ghost predicate Accumulated(state: Payload, updates: seq<Update>, target: Target, fields: map<string, Json>,
                              kids: map<string, Shape>)
    reads ObjectsOf(kids)
  {
    HoldsKids(fields, kids) && Forest(kids)
        && AccumulateAll(state, AssignmentsTo(updates, target)) == Some(AbsKids(kids))
  }

  lemma NothingAccumulated(state: Payload, updates: seq<Update>, target: Target)
    requires updates == []
    ensures Accumulated(state, updates, target, map[], map[]) && ObjectsOf(map[]) == {}
  {
  }

  lemma Skips(state: Payload, updates: seq<Update>, i: nat, target: Target, fields: map<string, Json>,
              kids: map<string, Shape>)
    requires i < |updates| && Accumulated(state, updates[..i], target, fields, kids)
    requires !(Plan(updates[i]).Write? && Plan(updates[i]).target == target)
    ensures Accumulated(state, updates[..i + 1], target, fields, kids)
  {
    OneMoreUpdate(updates, i, target);
  }

  lemma Writes(state: Payload, updates: seq<Update>, i: nat, target: Target, before: Payload, fields: map<string, Json>,
               kids: map<string, Shape>)
    requires i < |updates| && Plan(updates[i]).Write? && Plan(updates[i]).target == target
    requires AccumulateAll(state, AssignmentsTo(updates[..i], target)) == Some(before)
    ensures var after := Accumulate(state, before, Plan(updates[i]).assignment);
            && (after.None? ==> AccumulateAll(state, AssignmentsTo(updates, target)).None?)
            && (HoldsKids(fields, kids) && Forest(kids) && after == Some(AbsKids(kids))
                ==> Accumulated(state, updates[..i + 1], target, fields, kids))
  {
    OneMoreUpdate(updates, i, target);
    AccumulateOneMore(state, AssignmentsTo(updates[..i], target), Plan(updates[i]).assignment);
    if Accumulate(state, before, Plan(updates[i]).assignment).None? {
      FailureStays(state, updates, i + 1, target);
    }
  }

  lemma PlanHasPath(u: Update)
    ensures Plan(u).Write? ==> Plan(u).assignment.path != []
  {
  }

  /**
   The update phase of the node. Changes nothing that existed before: the state and project trees
   hold what they held, and what it returns are new dicts over copied values.
   */
  method ExecuteUpdates(state: map<string, Json>, ghost stateKids: map<string, Shape>, project: map<string, Json>,
                        ghost projectKids: map<string, Shape>,
                        updates: seq<Update>)
    returns (ok: bool, stateUpdates: map<string, Json>, projectUpdates: map<string, Json>,
             ghost stateNew: map<string, Shape>, ghost projectNew: map<string, Shape>)
    requires HoldsKids(state, stateKids) && Forest(stateKids) && allocated(ObjectsOf(stateKids))
    requires HoldsKids(project, projectKids) && Forest(projectKids) && allocated(ObjectsOf(projectKids))
    ensures HoldsKids(state, stateKids) && HoldsKids(project, projectKids)
    ensures ok <==> Succeeds(AbsKids(stateKids), AbsKids(projectKids), updates)
    ensures ok ==> Accumulated(AbsKids(stateKids), updates, StateTarget, stateUpdates, stateNew)
                   && fresh(ObjectsOf(stateNew))
    ensures ok ==> Accumulated(AbsKids(projectKids), updates, ProjectTarget, projectUpdates, projectNew)
                   && fresh(ObjectsOf(projectNew))
    ensures ok ==> ReadsBack(AbsKids(stateKids), AbsKids(stateNew), updates, StateTarget)
                   && ReadsBack(AbsKids(projectKids), AbsKids(projectNew), updates, ProjectTarget)
  {
    hide ReadsBack, Objects, ObjectsOf, Tree, Forest, Holds, HoldsKids, Abs, AbsKids, Is, Accumulate, Plan,
         AssignmentsTo;
    stateUpdates, stateNew, projectUpdates, projectNew := map[], map[], map[], map[];
    ghost var so: set<PyDict>, po: set<PyDict>, s, p := {}, {}, AbsKids(stateKids), AbsKids(projectKids);
    assert updates[..0] == [];
    NothingAccumulated(s, updates[..0], StateTarget);
    NothingAccumulated(p, updates[..0], ProjectTarget);
    for i := 0 to |updates|
      invariant allocated(ObjectsOf(stateKids)) && HoldsKids(state, stateKids)
      invariant allocated(ObjectsOf(projectKids)) && HoldsKids(project, projectKids)
      invariant so == ObjectsOf(stateNew) && po == ObjectsOf(projectNew) && fresh(so) && fresh(po) && allocated(so)
                && allocated(po) && so !! po
      invariant Accumulated(s, updates[..i], StateTarget, stateUpdates, stateNew)
      invariant Accumulated(p, updates[..i], ProjectTarget, projectUpdates, projectNew)
      invariant forall j :: 0 <= j < i ==> !Plan(updates[j]).Refused?
    {
      var plan := Plan(updates[i]);
      if plan.Refused? {
        return false, stateUpdates, projectUpdates, stateNew, projectNew;
      }
      if plan.Skipped? {
        Skips(s, updates, i, StateTarget, stateUpdates, stateNew);
        Skips(p, updates, i, ProjectTarget, projectUpdates, projectNew);
      } else if plan.target == StateTarget {
        ghost var before := AbsKids(stateNew);
        Skips(p, updates, i, ProjectTarget, projectUpdates, projectNew);
        PlanHasPath(updates[i]);
        ok, stateUpdates, stateNew := WriteInto(state, stateKids, stateUpdates, stateNew, plan.assignment);
        Writes(s, updates, i, StateTarget, before, stateUpdates, stateNew);
        if !ok {
          return;
        }
        so := ObjectsOf(stateNew);
      } else {
        ghost var before := AbsKids(projectNew);
        Skips(s, updates, i, StateTarget, stateUpdates, stateNew);
        PlanHasPath(updates[i]);
        ok, projectUpdates, projectNew := WriteInto(project, projectKids, projectUpdates, projectNew, plan.assignment);
        Writes(p, updates, i, ProjectTarget, before, projectUpdates, projectNew);
        if !ok {
          return;
        }
        po := ObjectsOf(projectNew);
      }
    }
    assert updates[..|updates|] == updates;
    WritesReadBack(s, updates, StateTarget);
    WritesReadBack(p, updates, ProjectTarget);
    ok := true;
  }
}
