/** The bounded cache of compiled expressions: least recently used out first. */
module CelCache {
  import opened Workflow
  import opened Collections

  type Program = string

  const MAX_CACHE_SIZE := 10000

  function Remove(xs: seq<string>, x: string): (r: seq<string>)
    ensures forall y :: y in r <==> y in xs && y != x
    ensures |r| <= |xs|
  {
    if xs == [] then []
    else
      assert xs == [xs[0]] + xs[1..];
      if xs[0] == x then Remove(xs[1..], x) else [xs[0]] + Remove(xs[1..], x)
  }

  /** The keys are those of the programs, each once, and every expression maps to its own compilation. */
  ghost predicate Entries(order: seq<string>, programs: map<string, Program>, compile: string -> Option<Program>) {
    && Distinct(order)
    && (forall e :: e in order <==> e in programs)
    && forall e :: e in programs ==> compile(e) == Some(programs[e])
  }

  function Without(programs: map<string, Program>, expression: string): map<string, Program> {
    map e | e in programs && e != expression :: programs[e]
  }

  lemma EntriesAppend(order: seq<string>, programs: map<string, Program>, compile: string -> Option<Program>, e: string)
    requires Entries(order, programs, compile) && e !in programs && compile(e).Some?
    ensures Entries(order + [e], programs[e := compile(e).value], compile)
  {
    AppendDistinct(order, e);
  }

  lemma EntriesEvict(order: seq<string>, programs: map<string, Program>, compile: string -> Option<Program>)
    requires Entries(order, programs, compile) && order != []
    ensures Entries(order[1..], Without(programs, order[0]), compile)
  {
    hide Distinct;
    TailDistinct(order);
    HeadAndTail(order);
  }

  /** The cache as an ordered dict: keys from least to most recently used, and their programs. */
  class Cache {
    const maxSize: nat
    const compile: string -> Option<Program>
    var order: seq<string>
    var programs: map<string, Program>

    ghost predicate Valid()
      reads this
    {
      Entries(order, programs, compile) && |order| <= maxSize && maxSize > 0
    }

    constructor (compile: string -> Option<Program>, maxSize: nat := MAX_CACHE_SIZE)
      requires maxSize > 0
      ensures Valid() && this.maxSize == maxSize && this.compile == compile && order == []
    {
      this.compile, this.maxSize, order, programs := compile, maxSize, [], map[];
    }

    /**
     A cached program moves to the end; a new one is appended and the oldest evicted on overflow; None for a compile
     error.
     */
    method GetOrCompile(expression: string) returns (result: Option<Program>)
      requires Valid()
      modifies this
      ensures Valid() && order == Touched(old(order), expression, compile, maxSize)
      ensures result == compile(expression)
    {
      hide Distinct, Remove, LastN;
      if expression in programs {
        MoveToEnd(order, expression);
        order := Remove(order, expression) + [expression];
        return Some(programs[expression]);
      }
      result := compile(expression);
      if result.Some? {
        Insert(expression, result.value);
      }
    }

    /** Appends a new entry and evicts the oldest on overflow. */
    method Insert(expression: string, program: Program)
      requires Valid() && expression !in programs && compile(expression) == Some(program)
      modifies this
      ensures Valid() && order == LastN(old(order) + [expression], maxSize)
    {
      hide Entries;
      EntriesAppend(order, programs, compile, expression);
      order, programs := order + [expression], programs[expression := program];
      if |order| > maxSize {
        EntriesEvict(order, programs, compile);
        order, programs := order[1..], Without(programs, order[0]);
      }
    }

    method ClearCache()
      requires Valid()
      modifies this
      ensures Valid() && order == []
    {
      order, programs := [], map[];
    }
  }

  /** The order after a lookup. */
  function Touched(order: seq<string>, expression: string, compile: string -> Option<Program>,
                   maxSize: nat): seq<string>
  {
    if expression in order then Remove(order, expression) + [expression]
    else if compile(expression).None? then order
    else LastN(order + [expression], maxSize)
  }

  lemma HeadAndTail(xs: seq<string>)
    requires xs != []
    ensures forall e :: e in xs <==> e == xs[0] || e in xs[1..]
  {
    assert xs == [xs[0]] + xs[1..];
  }

  lemma AppendDistinct(xs: seq<string>, x: string)
    requires Distinct(xs) && x !in xs
    ensures Distinct(xs + [x])
  {
    assert forall i :: 0 <= i < |xs| ==> xs[i] in xs;
  }

  lemma PrependDistinct(x: string, xs: seq<string>)
    requires Distinct(xs) && x !in xs
    ensures Distinct([x] + xs)
  {
    assert forall i :: 0 <= i < |xs| ==> xs[i] in xs;
  }

  lemma TailDistinct(xs: seq<string>)
    requires Distinct(xs) && xs != []
    ensures Distinct(xs[1..]) && xs[0] !in xs[1..]
  {
    assert forall i :: 0 <= i < |xs[1..]| ==> xs[1..][i] == xs[i + 1];
  }

  lemma {:induction false} RemoveDistinct(xs: seq<string>, x: string)
    requires Distinct(xs)
    ensures Distinct(Remove(xs, x)) && |Remove(xs, x)| == if x in xs then |xs| - 1 else |xs|
    decreases |xs|
  {
    hide Distinct;
    if xs != [] {
      TailDistinct(xs);
      RemoveDistinct(xs[1..], x);
      assert xs == [xs[0]] + xs[1..];
      if xs[0] != x {
        PrependDistinct(xs[0], Remove(xs[1..], x));
      }
    }
  }

  /** Moving an entry to the end keeps the entries distinct. */
  lemma MoveToEnd(xs: seq<string>, x: string)
    requires Distinct(xs)
    ensures Distinct(Remove(xs, x) + [x]) && |Remove(xs, x)| == if x in xs then |xs| - 1 else |xs|
  {
    RemoveDistinct(xs, x);
    AppendDistinct(Remove(xs, x), x);
  }

  datatype Action = Resolve(expression: string) | Clear

  /** The cache order after any sequence of lookups and clears. */
  function OrderAfter(actions: seq<Action>, compile: string -> Option<Program>, maxSize: nat): seq<string> {
    if actions == [] then []
    else
      var before := OrderAfter(actions[..|actions| - 1], compile, maxSize);
      match actions[|actions| - 1]
      case Resolve(e) => Touched(before, e, compile, maxSize)
      case Clear => []
  }

  /** The distinct expressions resolved since the last clear, by their latest resolution; failures resolve nothing. */
  function Recency(actions: seq<Action>, compile: string -> Option<Program>): seq<string> {
    if actions == [] then []
    else
      var before := Recency(actions[..|actions| - 1], compile);
      match actions[|actions| - 1]
      case Resolve(e) => if compile(e).None? then before else Remove(before, e) + [e]
      case Clear => []
  }

  lemma {:induction false} RecencyDistinct(actions: seq<Action>, compile: string -> Option<Program>)
    ensures Distinct(Recency(actions, compile))
    ensures forall e :: e in Recency(actions, compile) ==> compile(e).Some?
  {
    if actions != [] {
      var init := actions[..|actions| - 1];
      RecencyDistinct(init, compile);
      match actions[|actions| - 1] {
        case Resolve(e) => MoveToEnd(Recency(init, compile), e);
        case Clear =>
      }
    }
  }

  lemma {:induction false} RemoveSum(a: seq<string>, b: seq<string>, x: string)
    ensures Remove(a + b, x) == Remove(a, x) + Remove(b, x)
    decreases |a|
  {
    if a == [] {
      assert a + b == b;
    } else {
      RemoveSum(a[1..], b, x);
      assert (a + b)[1..] == a[1..] + b;
    }
  }

  lemma {:induction false} RemoveAbsent(xs: seq<string>, x: string)
    requires x !in xs
    ensures Remove(xs, x) == xs
  {
    if xs != [] {
      RemoveAbsent(xs[1..], x);
    }
  }

  /** Keeping the n most recent and moving one to the front commute. */
  lemma TouchKeepsLast(all: seq<string>, e: string, compile: string -> Option<Program>, n: nat)
    requires Distinct(all) && n > 0 && compile(e).Some?
    ensures Touched(LastN(all, n), e, compile, n) == LastN(Remove(all, e) + [e], n)
  {
    hide Remove, Distinct, LastN, Evicted;
    var kept := LastN(all, n);
    var gone := Evicted(all, n);
    RemoveSum(gone, kept, e);
    SuffixDistinct(gone, kept);
    MoveToEnd(all, e);
    MoveToEnd(kept, e);
    if e in kept {
      InOnePart(gone, kept, e);
      RemoveAbsent(gone, e);
      assert Remove(all, e) + [e] == gone + (Remove(kept, e) + [e]);
      LastOf(gone, Remove(kept, e) + [e], n);
    } else {
      RemoveAbsent(kept, e);
      assert Remove(all, e) + [e] == Remove(gone, e) + (kept + [e]);
      if |kept| < n {
        LastOf(Remove(gone, e), kept + [e], n);
        LastOf([], kept + [e], n);
        assert [] + (kept + [e]) == kept + [e];
      } else {
        assert kept + [e] == [kept[0]] + (kept[1..] + [e]);
        assert Remove(all, e) + [e] == (Remove(gone, e) + [kept[0]]) + (kept[1..] + [e]);
        LastOf(Remove(gone, e) + [kept[0]], kept[1..] + [e], n);
        LastOf([kept[0]], kept[1..] + [e], n);
      }
    }
  }

  /** What LastN drops. */
  function Evicted(xs: seq<string>, n: nat): (gone: seq<string>)
    ensures xs == gone + LastN(xs, n)
    ensures |LastN(xs, n)| <= n && (gone != [] ==> |LastN(xs, n)| == n)
  {
    if |xs| <= n then [] else xs[..|xs| - n]
  }

  lemma LastOf(p: seq<string>, s: seq<string>, n: nat)
    requires |s| == n || (p == [] && |s| <= n)
    ensures LastN(p + s, n) == s
  {
    assert p == [] ==> p + s == s;
  }

  lemma SuffixDistinct(a: seq<string>, b: seq<string>)
    requires Distinct(a + b)
    ensures Distinct(b)
  {
    assert forall i :: 0 <= i < |b| ==> b[i] == (a + b)[|a| + i];
  }

  lemma InOnePart(a: seq<string>, b: seq<string>, x: string)
    requires Distinct(a + b) && x in b
    ensures x !in a
  {
    var j :| 0 <= j < |b| && b[j] == x;
    assert (a + b)[|a| + j] == x;
    assert forall i :: 0 <= i < |a| ==> (a + b)[i] == a[i];
  }

  /** The cache holds exactly the maxSize most recently resolved distinct expressions, in recency order. */
  lemma {:induction false} CacheIsMostRecent(actions: seq<Action>, compile: string -> Option<Program>, maxSize: nat)
    requires maxSize > 0
    ensures OrderAfter(actions, compile, maxSize) == LastN(Recency(actions, compile), maxSize)
  {
    hide Touched, Remove, LastN;
    if actions == [] {
      NothingKept(maxSize);
    } else {
      var init := actions[..|actions| - 1];
      CacheIsMostRecent(init, compile, maxSize);
      RecencyDistinct(init, compile);
      match actions[|actions| - 1] {
        case Resolve(e) =>
          if compile(e).Some? {
            TouchKeepsLast(Recency(init, compile), e, compile, maxSize);
          } else {
            FailedTouch(Recency(init, compile), e, compile, maxSize);
          }
        case Clear => NothingKept(maxSize);
      }
    }
  }

  lemma NothingKept(maxSize: nat)
    ensures LastN<string>([], maxSize) == []
  {
  }

  /** A failing expression is in no cache, and looking it up changes nothing. */
  lemma FailedTouch(all: seq<string>, e: string, compile: string -> Option<Program>, n: nat)
    requires compile(e).None? && forall x :: x in all ==> compile(x).Some?
    ensures Touched(LastN(all, n), e, compile, n) == LastN(all, n)
  {
  }
}
