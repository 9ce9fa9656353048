/**
 The distributed concurrency limiter: one Redis sorted set per key, an atomic acquire that purges
 expired holders, and calls spread over workers that may crash.
 */
module Semaphore {
  import opened Collections

  /** A holder's unique token. */
  type Token = nat

  /** The sorted set at a key, scored by expiry in milliseconds, and when the key itself expires. */
  datatype Slots = Slots(holders: map<Token, int>, expireAt: int)

  function Unexpired(holders: map<Token, int>, now: int): map<Token, int> {
    map t | t in holders && holders[t] > now :: holders[t]
  }

  /** The acquire script: purge, check the count, take a slot and extend the key. */
  function TryAcquire(s: Slots, limit: nat, token: Token, holdMs: nat, now: int): (Slots, bool) {
    var live := Unexpired(s.holders, now);
    if |live| < limit then (Slots(live[token := now + holdMs], now + holdMs + 1000), true)
    else (s.(holders := live), false)
  }

  /**
   What an acquire decides and leaves: a slot is taken exactly when fewer than the limit are unexpired,
   expired holders are gone, the others keep their expiry, and the key outlives the slot by a second.
   */
  lemma AcquireDecides(s: Slots, limit: nat, token: Token, holdMs: nat, now: int)
    ensures var (after, acquired) := TryAcquire(s, limit, token, holdMs, now);
            && (acquired <==> |set t | t in s.holders && s.holders[t] > now| < limit)
            && (forall t :: t != token ==>
                  (t in after.holders <==> t in s.holders && s.holders[t] > now)
                  && (t in after.holders ==> after.holders[t] == s.holders[t]))
            && (acquired ==> token in after.holders && after.holders[token] == now + holdMs
                             && after.expireAt == now + holdMs + 1000)
            && (!acquired ==> after.expireAt == s.expireAt
                              && (token in after.holders <==> token in s.holders && s.holders[token] > now)
                              && (token in after.holders ==> after.holders[token] == s.holders[token]))
  {
    var live := Unexpired(s.holders, now);
    assert live.Keys == set t | t in s.holders && s.holders[t] > now;
    assert |live| == |live.Keys|;
  }

  /** A slot whose expiry has passed is free again at the next acquire, whoever held it. */
  lemma ExpiredIsReclaimed(s: Slots, limit: nat, token: Token, holdMs: nat, now: int, crashed: Token)
    requires crashed in s.holders && s.holders[crashed] <= now && crashed != token
    ensures crashed !in TryAcquire(s, limit, token, holdMs, now).0.holders
    ensures |s.holders| <= limit ==> TryAcquire(s, limit, token, holdMs, now).1
  {
    var live := Unexpired(s.holders, now);
    assert live.Keys <= s.holders.Keys - {crashed};
    SubsetSize(live.Keys, s.holders.Keys - {crashed});
  }

  /** An acquired call in flight: when it took its slot, and for how long the slot is held. */
  datatype Call = Call(since: int, holdMs: nat)

  /** One key's limit and the shortest and longest hold its callers ask for. */
  datatype Config = Config(limit: nat, shortest: nat, longest: nat)

  datatype World = World(slots: Slots, now: int, calls: map<Token, Call>, used: set<Token>)

  const QUIET := World(Slots(map[], 0), 0, map[], {})

  datatype Action =
    | Acquire(token: Token, holdMs: nat)
    | Release(token: Token)
    | Crash(token: Token)
    | Tick(ms: nat)
    | ExpireKey

  /** What can happen: fresh tokens, holds within the configured lengths, and no call outliving its hold. */
  ghost predicate Possible(cfg: Config, w: World, a: Action) {
    match a
    case Acquire(token, holdMs) => token !in w.used && cfg.shortest <= holdMs <= cfg.longest
    case Release(token) => token in w.calls
    case Crash(token) => token in w.calls
    case Tick(ms) => forall t :: t in w.calls ==> w.now + ms < w.calls[t].since + w.calls[t].holdMs
    case ExpireKey => w.now >= w.slots.expireAt
  }

  function Without(calls: map<Token, Call>, token: Token): map<Token, Call> {
    map t | t in calls && t != token :: calls[t]
  }

  function Next(cfg: Config, w: World, a: Action): World {
    match a
    case Acquire(token, holdMs) =>
      var (slots, acquired) := TryAcquire(w.slots, cfg.limit, token, holdMs, w.now);
      World(slots, w.now, if acquired then w.calls[token := Call(w.now, holdMs)] else w.calls, w.used + {token})
    case Release(token) =>
      World(w.slots.(holders := map t | t in w.slots.holders && t != token :: w.slots.holders[t]), w.now,
            Without(w.calls, token), w.used)
    case Crash(token) => w.(calls := Without(w.calls, token))
    case Tick(ms) => w.(now := w.now + ms)
    case ExpireKey => w.(slots := Slots(map[], w.slots.expireAt))
  }

  /** A run, each step of which is possible. */
  ghost predicate Runs(cfg: Config, w: World, actions: seq<Action>)
    decreases |actions|
  {
    actions != [] ==> Possible(cfg, w, actions[0]) && Runs(cfg, Next(cfg, w, actions[0]), actions[1..])
  }

  function After(cfg: Config, w: World, actions: seq<Action>): World
    decreases |actions|
  {
    if actions == [] then w else After(cfg, Next(cfg, w, actions[0]), actions[1..])
  }

  /** Holds of one key may not differ by more than the margin of the key's own expiry. */
  predicate HoldsAgree(cfg: Config) {
    cfg.limit <= 1 || cfg.longest <= cfg.shortest + 1000
  }

  /** A call in flight holds its slot, unexpired, in a key that outlives it. */
  ghost predicate Holds(w: World, t: Token) {
    && t in w.calls && t in w.slots.holders && t in w.used
    && w.slots.holders[t] == w.calls[t].since + w.calls[t].holdMs > w.now >= w.calls[t].since
    && w.slots.expireAt >= w.calls[t].since + w.calls[t].holdMs
  }

  ghost predicate Inv(cfg: Config, w: World) {
    && (forall t :: t in w.calls ==> Holds(w, t) && cfg.shortest <= w.calls[t].holdMs <= cfg.longest)
    && |w.slots.holders| <= cfg.limit
    && w.slots.holders.Keys <= w.used
  }

  lemma AcquireKeeps(cfg: Config, w: World, token: Token, holdMs: nat)
    requires HoldsAgree(cfg) && Inv(cfg, w) && Possible(cfg, w, Acquire(token, holdMs)) && holdMs > 0
    ensures Inv(cfg, Next(cfg, w, Acquire(token, holdMs)))
  {
    var live, w' := Unexpired(w.slots.holders, w.now), Next(cfg, w, Acquire(token, holdMs));
    SubsetSize(live.Keys, w.slots.holders.Keys);
    assert live.Keys <= w.slots.holders.Keys;
    assert |live| == 0 ==> live == map[];
    forall t | t in w.calls ensures Holds(w', t) && t in live {
      assert Holds(w, t);
    }
  }

  lemma ReleaseKeeps(cfg: Config, w: World, token: Token)
    requires Inv(cfg, w)
    ensures Inv(cfg, Next(cfg, w, Release(token))) && Inv(cfg, Next(cfg, w, Crash(token)))
  {
    var holders := Next(cfg, w, Release(token)).slots.holders;
    assert holders.Keys <= w.slots.holders.Keys;
    SubsetSize(holders.Keys, w.slots.holders.Keys);
    forall t | t in w.calls && t != token
      ensures Holds(Next(cfg, w, Release(token)), t) && Holds(Next(cfg, w, Crash(token)), t) {
      assert Holds(w, t);
    }
  }

  lemma TimeKeeps(cfg: Config, w: World, a: Action)
    requires Inv(cfg, w) && (a.Tick? || a.ExpireKey?) && Possible(cfg, w, a)
    ensures Inv(cfg, Next(cfg, w, a))
  {
    forall t | t in w.calls ensures Holds(Next(cfg, w, a), t) {
      assert Holds(w, t);
    }
  }

  lemma {:induction false} RunsKeep(cfg: Config, w: World, actions: seq<Action>)
    requires HoldsAgree(cfg) && cfg.shortest > 0 && Inv(cfg, w) && Runs(cfg, w, actions)
    ensures Inv(cfg, After(cfg, w, actions))
    decreases |actions|
  {
    hide Inv, Next;
    if actions != [] {
      match actions[0] {
        case Acquire(token, holdMs) => AcquireKeeps(cfg, w, token, holdMs);
        case Release(token) => ReleaseKeeps(cfg, w, token);
        case Crash(token) => ReleaseKeeps(cfg, w, token);
        case _ => TimeKeeps(cfg, w, actions[0]);
      }
      RunsKeep(cfg, Next(cfg, w, actions[0]), actions[1..]);
    }
  }

  /** Never more acquired calls in flight than the limit, and each still holds its slot. */
  lemma WithinLimit(cfg: Config, actions: seq<Action>)
    requires HoldsAgree(cfg) && cfg.shortest > 0 && Runs(cfg, QUIET, actions)
    ensures var w := After(cfg, QUIET, actions);
            |w.calls| <= cfg.limit && forall t :: t in w.calls ==> t in w.slots.holders && w.slots.holders[t] > w.now
  {
    hide Runs, After;
    RunsKeep(cfg, QUIET, actions);
    var w := After(cfg, QUIET, actions);
    assert forall t :: t in w.calls ==> Holds(w, t);
    SubsetSize(w.calls.Keys, w.slots.holders.Keys);
  }

  lemma {:induction false} RunsOn(cfg: Config, w: World, a: seq<Action>, b: seq<Action>)
    requires Runs(cfg, w, a) && Runs(cfg, After(cfg, w, a), b)
    ensures Runs(cfg, w, a + b) && After(cfg, w, a + b) == After(cfg, After(cfg, w, a), b)
    decreases |a|
  {
    if a == [] {
      assert a + b == b;
    } else {
      RunsOn(cfg, Next(cfg, w, a[0]), a[1..], b);
      assert (a + b)[1..] == a[1..] + b;
    }
  }

  ghost predicate FreshFrom(w: World, first: Token) {
    forall t :: t in w.used || t in w.calls || t in w.slots.holders ==> t < first
  }

  ghost predicate AllUnexpired(w: World) {
    forall t :: t in w.slots.holders ==> w.slots.holders[t] > w.now
  }

  lemma KeyAdded<V>(m: map<Token, V>, token: Token, v: V)
    requires token !in m
    ensures |m[token := v]| == |m| + 1
  {
    assert m[token := v].Keys == m.Keys + {token};
  }

  /** A fresh token takes a slot when there is one and none has lapsed. */
  lemma TakesSlot(cfg: Config, w: World, token: Token, holdMs: nat)
    requires |w.slots.holders| < cfg.limit && AllUnexpired(w)
    ensures Next(cfg, w, Acquire(token, holdMs)) ==
            World(Slots(w.slots.holders[token := w.now + holdMs], w.now + holdMs + 1000), w.now,
                  w.calls[token := Call(w.now, holdMs)], w.used + {token})
  {
    assert Unexpired(w.slots.holders, w.now) == w.slots.holders;
  }

  lemma TakeFresh(cfg: Config, w: World, token: Token)
    requires |w.slots.holders| < cfg.limit && 0 < cfg.shortest <= cfg.longest && FreshFrom(w, token) && AllUnexpired(w)
    ensures Possible(cfg, w, Acquire(token, cfg.shortest))
    ensures var next := Next(cfg, w, Acquire(token, cfg.shortest));
            && |next.slots.holders| == |w.slots.holders| + 1 && |next.calls| == |w.calls| + 1
            && FreshFrom(next, token + 1) && AllUnexpired(next)
  {
    hide Next;
    TakesSlot(cfg, w, token, cfg.shortest);
    KeyAdded(w.slots.holders, token, w.now + cfg.shortest);
    KeyAdded(w.calls, token, Call(w.now, cfg.shortest));
  }

  /** Fresh tokens can take all the slots there are. */
  lemma {:induction false} FillUp(cfg: Config, w: World, first: Token, n: nat) returns (actions: seq<Action>)
    requires |w.slots.holders| + n <= cfg.limit && 0 < cfg.shortest <= cfg.longest && FreshFrom(w, first)
             && AllUnexpired(w)
    ensures Runs(cfg, w, actions) && |After(cfg, w, actions).calls| == |w.calls| + n
    decreases n
  {
    hide FreshFrom, AllUnexpired, Next, Possible;
    actions := [];
    if n > 0 {
      var take := Acquire(first, cfg.shortest);
      TakeFresh(cfg, w, first);
      var rest := FillUp(cfg, Next(cfg, w, take), first + 1, n - 1);
      actions := [take] + rest;
      assert actions[1..] == rest;
    }
  }

  /** With holds further apart, a short call lets the key expire under a long one, and the limit is exceeded. */
  lemma HoldsApartOverAdmit(cfg: Config) returns (actions: seq<Action>)
    requires !HoldsAgree(cfg) && 0 < cfg.shortest
    ensures Runs(cfg, QUIET, actions) && |After(cfg, QUIET, actions).calls| == cfg.limit + 1
  {
    hide Next, Runs, After, FreshFrom, AllUnexpired;
    var lapse := cfg.shortest + 1000;
    var w1 := World(Slots(map[0 := cfg.longest], cfg.longest + 1000), 0, map[0 := Call(0, cfg.longest)], {0});
    var w2 := World(Slots(w1.slots.holders[1 := cfg.shortest], lapse), 0, w1.calls[1 := Call(0, cfg.shortest)], {0, 1});
    var w3 := World(Slots(map[0 := cfg.longest], lapse), 0, w1.calls, {0, 1});
    var w4 := w3.(now := lapse);
    var w5 := w4.(slots := Slots(map[], lapse));
    TwoAcquire(cfg, w1, w2);
    OneReleasesAndTimePasses(cfg, w2, w3, w4, w5);
    assert FreshFrom(w5, 2) && AllUnexpired(w5) by { NobodyHolds(w5); }
    var rest := FillUp(cfg, w5, 2, cfg.limit);
    var opening := [Acquire(0, cfg.longest), Acquire(1, cfg.shortest), Release(1), Tick(lapse), ExpireKey];
    OpeningRuns(cfg, opening, w1, w2, w3, w4, w5);
    RunsOn(cfg, QUIET, opening, rest);
    actions := opening + rest;
  }

  lemma NobodyHolds(w: World)
    requires w.slots.holders == map[] && w.calls.Keys == {0} && w.used == {0, 1}
    ensures FreshFrom(w, 2) && AllUnexpired(w)
  {
  }

  lemma TwoAcquire(cfg: Config, w1: World, w2: World)
    requires cfg.limit >= 2 && 0 < cfg.shortest < cfg.longest
    requires w1 == World(Slots(map[0 := cfg.longest], cfg.longest + 1000), 0, map[0 := Call(0, cfg.longest)], {0})
    requires w2 == World(Slots(w1.slots.holders[1 := cfg.shortest], cfg.shortest + 1000), 0,
                         w1.calls[1 := Call(0, cfg.shortest)], {0, 1})
    ensures Next(cfg, QUIET, Acquire(0, cfg.longest)) == w1 && Next(cfg, w1, Acquire(1, cfg.shortest)) == w2
  {
    hide Next;
    TakesSlot(cfg, QUIET, 0, cfg.longest);
    TakesSlot(cfg, w1, 1, cfg.shortest);
  }

  lemma OneReleasesAndTimePasses(cfg: Config, w2: World, w3: World, w4: World, w5: World)
    requires w2.slots.holders == map[0 := cfg.longest, 1 := cfg.shortest]
    requires w2.calls == map[0 := Call(0, cfg.longest), 1 := Call(0, cfg.shortest)]
    requires w3 == World(Slots(map[0 := cfg.longest], w2.slots.expireAt), w2.now, map[0 := Call(0, cfg.longest)],
                         w2.used)
    requires w4 == w3.(now := cfg.shortest + 1000) && w5 == w4.(slots := Slots(map[], w4.slots.expireAt)) && w3.now == 0
    ensures Next(cfg, w2, Release(1)) == w3 && Next(cfg, w3, Tick(cfg.shortest + 1000)) == w4
            && Next(cfg, w4, ExpireKey) == w5
  {
    assert Without(w2.calls, 1) == w3.calls;
    assert Next(cfg, w2, Release(1)).slots.holders == w3.slots.holders;
  }

  lemma OpeningRuns(cfg: Config, a: seq<Action>, w1: World, w2: World, w3: World, w4: World, w5: World)
    requires |a| == 5
    requires Possible(cfg, QUIET, a[0]) && w1 == Next(cfg, QUIET, a[0]) && Possible(cfg, w1, a[1])
             && w2 == Next(cfg, w1, a[1])
    requires Possible(cfg, w2, a[2]) && w3 == Next(cfg, w2, a[2]) && Possible(cfg, w3, a[3])
             && w4 == Next(cfg, w3, a[3])
    requires Possible(cfg, w4, a[4]) && w5 == Next(cfg, w4, a[4])
    ensures Runs(cfg, QUIET, a) && After(cfg, QUIET, a) == w5
  {
    hide Next, Possible;
    assert a[4..][1..] == [] && a[3..][1..] == a[4..] && a[2..][1..] == a[3..] && a[1..][1..] == a[2..];
    assert Runs(cfg, w4, a[4..]) && After(cfg, w4, a[4..]) == w5;
    assert Runs(cfg, w3, a[3..]) && After(cfg, w3, a[3..]) == w5;
    assert Runs(cfg, w2, a[2..]) && After(cfg, w2, a[2..]) == w5;
    assert Runs(cfg, w1, a[1..]) && After(cfg, w1, a[1..]) == w5;
  }

  /**
   The cap exactly: acquired calls in flight stay within the limit in every run if and only if the
   holds its callers ask for do not differ by more than a second, or there is only one slot.
   */
  lemma LimitHoldsIff(cfg: Config)
    requires 0 < cfg.shortest <= cfg.longest
    ensures HoldsAgree(cfg) <==> forall actions :: Runs(cfg, QUIET, actions)
                                                   ==> |After(cfg, QUIET, actions).calls| <= cfg.limit
  {
    hide Runs, After;
    if HoldsAgree(cfg) {
      forall actions | Runs(cfg, QUIET, actions) ensures |After(cfg, QUIET, actions).calls| <= cfg.limit {
        WithinLimit(cfg, actions);
      }
    } else {
      var actions := HoldsApartOverAdmit(cfg);
    }
  }

  /** The slot lifetime for a call's own budget and the acquire wait, in milliseconds. */
  function HoldMs(holdTimeout: real, acquireTimeout: real): int
  {
    ((holdTimeout + acquireTimeout) * 1000.0).Floor + 1000
  }

  /** Both timeouts in whole milliseconds, rounded down, and a second more. */
  lemma HoldBracket(holdTimeout: real, acquireTimeout: real)
    ensures var budget := 1000.0 * holdTimeout + 1000.0 * acquireTimeout;
            budget + 999.0 < HoldMs(holdTimeout, acquireTimeout) as real <= budget + 1000.0
  {
  }

  /** A call that waited for a second slot still ends before its first slot expires. */
  lemma WaitAndCallFitHold(waited: real, called: real, holdTimeout: real, acquireTimeout: real)
    requires 0.0 <= waited < acquireTimeout + 0.5 && 0.0 <= called <= holdTimeout
    ensures (waited + called) * 1000.0 < HoldMs(holdTimeout, acquireTimeout) as real
  {
    var x := (holdTimeout + acquireTimeout) * 1000.0;
    assert x - 1.0 < x.Floor as real;
    assert (waited + called) * 1000.0 < x + 500.0;
  }

  /** The k-th pause between tries, half a second at most. */
  function Pause(k: nat): (p: real)
    ensures 0.05 <= p <= 0.5
  {
    if Backoff(k) < 0.5 then Backoff(k) else 0.5
  }

  function Backoff(k: nat): (d: real)
    ensures d >= 0.05
  {
    if k == 0 then 0.05 else Backoff(k - 1) * 1.5
  }

  /** Pauses begin at 50 ms and grow by half until they stay at half a second. */
  lemma PausesGrow(k: nat)
    ensures Pause(0) == 0.05
    ensures Pause(k + 1) == if 1.5 * Pause(k) < 0.5 then 1.5 * Pause(k) else 0.5
  {
  }

  function TotalPause(n: nat): real {
    if n == 0 then 0.0 else TotalPause(n - 1) + Pause(n - 1)
  }

  datatype Attempt = Taken | Full | RedisDown

  /**
   The polling loop at zero Redis latency: `attempts` says what each try finds. Gives up within half
   a second of the timeout and proceeds without a slot.
   */
  method AwaitSlot(limit: int, redisConfigured: bool, acquireTimeout: real, attempts: nat -> Attempt)
    returns (acquired: bool, waited: real, tries: nat)
    requires acquireTimeout >= 0.0
    ensures 0.0 <= waited < acquireTimeout + 0.5
    ensures !redisConfigured || limit <= 0 ==> !acquired && tries == 0 && waited == 0.0
    ensures redisConfigured && limit > 0 ==> tries > 0 && (acquired <==> attempts(tries - 1) == Taken)
    ensures forall i :: 0 <= i < tries - 1 ==> attempts(i) == Full
    ensures tries > 0 ==> waited == TotalPause(tries - 1)
    ensures tries > 0 && attempts(tries - 1) == Full ==> waited >= acquireTimeout
  {
    acquired, waited, tries := false, 0.0, 0;
    if !redisConfigured || limit <= 0 {
      return;
    }
    var delay := 0.05;
    while true
      invariant 0.0 <= waited < acquireTimeout + 0.5 && delay >= 0.05
      invariant waited == TotalPause(tries) && delay == Backoff(tries)
      invariant !acquired && forall i :: 0 <= i < tries ==> attempts(i) == Full
      decreases (acquireTimeout + 0.5 - waited) * 20.0
    {
      var attempt := attempts(tries);
      tries := tries + 1;
      if attempt == Taken {
        acquired := true;
        return;
      }
      if attempt == RedisDown || waited >= acquireTimeout {
        return;
      }
      waited := waited + if delay < 0.5 then delay else 0.5;
      delay := delay * 1.5;
    }
  }

  /** The sorted set at one key. */
  class SortedSet {
    var holders: map<Token, int>
    var expireAt: int

    constructor ()
      ensures Abs() == Slots(map[], 0)
    {
      holders, expireAt := map[], 0;
    }

    ghost function Abs(): Slots
      reads this
    {
      Slots(holders, expireAt)
    }

    /** The script, run atomically at server time `now`. */
    method Acquire(limit: nat, token: Token, holdMs: nat, now: int) returns (acquired: bool)
      modifies this
      ensures (Abs(), acquired) == TryAcquire(old(Abs()), limit, token, holdMs, now)
    {
      holders := Unexpired(holders, now);
      if |holders| < limit {
        holders := holders[token := now + holdMs];
        expireAt := now + holdMs + 1000;
        return true;
      }
      return false;
    }

    method Release(token: Token)
      modifies this
      ensures expireAt == old(expireAt) && holders == map t | t in old(holders) && t != token :: old(holders)[t]
    {
      holders := map t | t in holders && t != token :: holders[t];
    }
  }
}
