/** The two sliding-window rate limiters: a pruned list of admitted hits, and a sorted set that counts every hit. */
module RateLimit {
  import opened Workflow

  /** Entries later than the cutoff. */
  function Recent(ts: seq<real>, cutoff: real): (r: seq<real>)
    ensures |r| <= |ts|
    ensures forall t :: t in r <==> t in ts && t > cutoff
  {
    if ts == [] then []
    else
      var init, last := Recent(ts[..|ts| - 1], cutoff), ts[|ts| - 1];
      assert ts == ts[..|ts| - 1] + [last];
      if last > cutoff then init + [last] else init
  }

  function HitMemory(bucket: seq<real>, now: real, limit: int, window: nat): (seq<real>, bool) {
    var kept := Recent(bucket, now - window as real);
    if |kept| >= limit then (kept, false) else (kept + [now], true)
  }

  /** Adds the hit in any case and admits it if the window, itself included, holds no more than the limit. */
  function HitRedis(scores: seq<real>, now: real, limit: int, window: nat): (seq<real>, bool) {
    var all := Recent(scores, now - window as real) + [now];
    (all, |all| <= limit)
  }

  class InMemoryRateLimitBackend {
    var hits: map<string, seq<real>>

    constructor ()
      ensures hits == map[]
    {
      hits := map[];
    }

    method Hit(key: string, limit: int, windowSeconds: nat, now: real) returns (admitted: bool)
      modifies this
      ensures var before := if key in old(hits) then old(hits)[key] else [];
              var (after, ok) := HitMemory(before, now, limit, windowSeconds);
              hits == old(hits)[key := after] && admitted == ok
    {
      var cutoff := now - windowSeconds as real;
      var bucket := Recent(if key in hits then hits[key] else [], cutoff);
      if |bucket| >= limit {
        hits := hits[key := bucket];
        return false;
      }
      bucket := bucket + [now];
      hits := hits[key := bucket];
      admitted := true;
    }
  }

  /** The sorted sets, by key; members are unique, so only scores matter. */
  class RedisRateLimitBackend {
    var scores: map<string, seq<real>>
    var expireAt: map<string, real>

    constructor ()
      ensures scores == map[] && expireAt == map[]
    {
      scores, expireAt := map[], map[];
    }

    method Hit(key: string, limit: int, windowSeconds: nat, now: real) returns (admitted: bool)
      modifies this
      ensures var before := if key in old(scores) then old(scores)[key] else [];
              var (after, ok) := HitRedis(before, now, limit, windowSeconds);
              scores == old(scores)[key := after] && admitted == ok
      ensures expireAt == old(expireAt)[key := now + windowSeconds as real]
    {
      var cutoff := now - windowSeconds as real;
      var rest := Recent(if key in scores then scores[key] else [], cutoff);
      scores := scores[key := rest + [now]];
      var count := |scores[key]|;
      expireAt := expireAt[key := now + windowSeconds as real];
      admitted := count <= limit;
    }
  }

  ghost predicate Nondecreasing(ts: seq<real>) {
    forall i, j :: 0 <= i <= j < |ts| ==> ts[i] <= ts[j]
  }

  /** The in-memory bucket and the hits admitted so far. */
  function MemoryRun(times: seq<real>, limit: int, window: nat): (seq<real>, seq<real>) {
    if times == [] then ([], [])
    else
      var (bucket, admitted) := MemoryRun(times[..|times| - 1], limit, window);
      var now := times[|times| - 1];
      var (after, ok) := HitMemory(bucket, now, limit, window);
      (after, if ok then admitted + [now] else admitted)
  }

  function RedisRun(times: seq<real>, limit: int, window: nat): seq<real> {
    if times == [] then []
    else HitRedis(RedisRun(times[..|times| - 1], limit, window), times[|times| - 1], limit, window).0
  }

  /** Whether the last of these hits is admitted. */
  predicate MemoryAdmits(times: seq<real>, limit: int, window: nat)
    requires times != []
  {
    HitMemory(MemoryRun(times[..|times| - 1], limit, window).0, times[|times| - 1], limit, window).1
  }

  predicate RedisAdmits(times: seq<real>, limit: int, window: nat)
    requires times != []
  {
    HitRedis(RedisRun(times[..|times| - 1], limit, window), times[|times| - 1], limit, window).1
  }

  lemma {:induction false} RecentTwice(ts: seq<real>, c: real, later: real)
    requires c <= later
    ensures Recent(Recent(ts, c), later) == Recent(ts, later)
  {
    if ts != [] {
      var init, last := ts[..|ts| - 1], ts[|ts| - 1];
      RecentTwice(init, c, later);
      if last > c {
        RecentOneMore(Recent(init, c), last, later);
      }
    }
  }

  lemma RecentOneMore(ts: seq<real>, t: real, c: real)
    ensures Recent(ts + [t], c) == if t > c then Recent(ts, c) + [t] else Recent(ts, c)
  {
    assert (ts + [t])[..|ts|] == ts;
  }

  /** In time order the recent entries are the last ones. */
  lemma {:induction false} RecentIsSuffix(ts: seq<real>, c: real, n: nat)
    requires Nondecreasing(ts) && n <= |ts| && |Recent(ts, c)| < n
    ensures ts[|ts| - n] <= c
    decreases |ts|
  {
    var init, last := ts[..|ts| - 1], ts[|ts| - 1];
    if last > c {
      RecentIsSuffix(init, c, n - 1);
    }
  }

  /** The bucket stands for the admitted hits, as far as any later cutoff can tell. */
  ghost predicate Stands(bucket: seq<real>, admitted: seq<real>, since: real) {
    forall c :: c >= since ==> Recent(bucket, c) == Recent(admitted, c)
  }

  ghost predicate Latest(ts: seq<real>, now: real) {
    Nondecreasing(ts) && (ts != [] ==> ts[|ts| - 1] <= now)
  }

  lemma HitStands(bucket: seq<real>, admitted: seq<real>, since: real, now: real, limit: int, window: nat)
    requires Stands(bucket, admitted, since) && since <= now - window as real && Latest(admitted, now)
    ensures var (after, ok) := HitMemory(bucket, now, limit, window);
            var admitted' := if ok then admitted + [now] else admitted;
            Stands(after, admitted', now - window as real) && Latest(admitted', now)
  {
    hide Recent;
    var cutoff := now - window as real;
    forall c | c >= cutoff
      ensures Recent(Recent(bucket, cutoff), c) == Recent(admitted, c)
      ensures Recent(Recent(bucket, cutoff) + [now], c) == Recent(admitted + [now], c)
    {
      RecentTwice(bucket, cutoff, c);
      RecentOneMore(Recent(bucket, cutoff), now, c);
      RecentOneMore(admitted, now, c);
    }
  }

  lemma LatestLater(ts: seq<real>, now: real, later: real)
    requires Latest(ts, now) && now <= later
    ensures Latest(ts, later)
  {
  }

  lemma InitInOrder(times: seq<real>)
    requires Nondecreasing(times) && times != []
    ensures Nondecreasing(times[..|times| - 1])
    ensures |times| > 1 ==> times[|times| - 2] <= times[|times| - 1]
  {
  }

  lemma {:induction false} BucketStands(times: seq<real>, limit: int, window: nat)
    requires Nondecreasing(times) && times != []
    ensures var (bucket, admitted) := MemoryRun(times, limit, window);
            Stands(bucket, admitted, times[|times| - 1] - window as real) && Latest(admitted, times[|times| - 1])
    decreases |times|
  {
    hide Nondecreasing, Stands, Latest, HitMemory;
    InitInOrder(times);
    var init, now := times[..|times| - 1], times[|times| - 1];
    if init == [] {
      NoneStands(now, window);
      HitStands([], [], now - window as real, now, limit, window);
    } else {
      BucketStands(init, limit, window);
      var (bucket, admitted) := MemoryRun(init, limit, window);
      LatestLater(admitted, init[|init| - 1], now);
      HitStands(bucket, admitted, init[|init| - 1] - window as real, now, limit, window);
    }
  }

  lemma NoneStands(now: real, window: nat)
    ensures Stands([], [], now - window as real) && Latest([], now)
  {
  }

  /** Hits admitted `limit` apart are a window apart. */
  ghost predicate Spaced(admitted: seq<real>, limit: nat, window: nat) {
    forall i :: 0 <= i && i + limit < |admitted| ==> admitted[i] + window as real <= admitted[i + limit]
  }

  lemma {:induction false} AdmittedAreSpaced(times: seq<real>, limit: nat, window: nat)
    requires Nondecreasing(times)
    ensures Spaced(MemoryRun(times, limit, window).1, limit, window)
    ensures Nondecreasing(MemoryRun(times, limit, window).1)
    decreases |times|
  {
    if times != [] {
      var init, now := times[..|times| - 1], times[|times| - 1];
      AdmittedAreSpaced(init, limit, window);
      BucketStands(times, limit, window);
      if init != [] {
        InitInOrder(times);
        BucketStands(init, limit, window);
        AdmittedLater(init, now, limit, window);
      }
    }
  }

  /** The hit admitted now finds fewer than limit admitted hits in its window. */
  lemma AdmittedLater(init: seq<real>, now: real, limit: nat, window: nat)
    requires Nondecreasing(init) && init != [] && init[|init| - 1] <= now
    requires var (bucket, admitted) := MemoryRun(init, limit, window);
             && Stands(bucket, admitted, init[|init| - 1] - window as real) && Nondecreasing(admitted)
                && Spaced(admitted, limit, window)
    ensures var (bucket, admitted) := MemoryRun(init, limit, window);
            HitMemory(bucket, now, limit, window).1 ==> Spaced(admitted + [now], limit, window)
  {
    hide MemoryRun;
    var (bucket, admitted) := MemoryRun(init, limit, window);
    var cutoff := now - window as real;
    assert Recent(bucket, cutoff) == Recent(admitted, cutoff);
    if |Recent(admitted, cutoff)| < limit <= |admitted| {
      RecentIsSuffix(admitted, cutoff, limit);
    }
  }

  /** The entries in a half-open window. */
  function Within(ts: seq<real>, low: real, high: real): (r: seq<real>)
    ensures forall t :: t in r <==> t in ts && low < t <= high
  {
    if ts == [] then []
    else
      var init, last := Within(ts[..|ts| - 1], low, high), ts[|ts| - 1];
      assert ts == ts[..|ts| - 1] + [last];
      if low < last <= high then init + [last] else init
  }

  /** In time order the entries in a window are consecutive. */
  lemma {:induction false} WithinIsBlock(ts: seq<real>, low: real, high: real) returns (i: nat)
    requires Nondecreasing(ts)
    ensures i + |Within(ts, low, high)| <= |ts| && Within(ts, low, high) == ts[i..i + |Within(ts, low, high)|]
  {
    i := 0;
    if ts != [] {
      var init, last := ts[..|ts| - 1], ts[|ts| - 1];
      i := WithinIsBlock(init, low, high);
      var block := Within(init, low, high);
      if low < last <= high {
        if block == [] {
          i := |init|;
        } else {
          BlockReachesEnd(init, low, high, i);
        }
      }
    }
  }

  lemma {:induction false} BlockReachesEnd(ts: seq<real>, low: real, high: real, i: nat)
    requires Nondecreasing(ts) && (ts != [] ==> ts[|ts| - 1] <= high)
    requires Within(ts, low, high) != [] && i + |Within(ts, low, high)| <= |ts|
             && Within(ts, low, high) == ts[i..i + |Within(ts, low, high)|]
    ensures i + |Within(ts, low, high)| == |ts|
  {
    var block := Within(ts, low, high);
    var n := |ts|;
    assert block[0] == ts[i] && block[0] in block;
    assert low < ts[i] <= ts[n - 1] <= high;
    assert forall k :: i <= k < n ==> low < ts[k] <= high;
    WithinAll(ts, low, high, i);
  }

  /** Entries from i on all lie in the window. */
  lemma {:induction false} WithinAll(ts: seq<real>, low: real, high: real, i: nat)
    requires i <= |ts| && forall k :: i <= k < |ts| ==> low < ts[k] <= high
    ensures |Within(ts, low, high)| >= |ts| - i
    decreases |ts|
  {
    if i < |ts| {
      WithinAll(ts[..|ts| - 1], low, high, i);
    }
  }

  lemma InBlock(ts: seq<real>, low: real, high: real, i: nat, k: nat)
    requires i + |Within(ts, low, high)| <= |ts| && Within(ts, low, high) == ts[i..i + |Within(ts, low, high)|]
    requires k < |Within(ts, low, high)|
    ensures low < ts[i + k] <= high
  {
    assert Within(ts, low, high)[k] in Within(ts, low, high);
  }

  /** No window of the given length holds more than `limit` admitted hits. */
  lemma WindowHoldsLimit(times: seq<real>, limit: nat, window: nat, end: real)
    requires Nondecreasing(times)
    ensures |Within(MemoryRun(times, limit, window).1, end - window as real, end)| <= limit
  {
    hide MemoryRun, Within;
    var admitted, low := MemoryRun(times, limit, window).1, end - window as real;
    AdmittedAreSpaced(times, limit, window);
    var i := WithinIsBlock(admitted, low, end);
    var block := Within(admitted, low, end);
    if |block| > limit {
      InBlock(admitted, low, end, i, 0);
      InBlock(admitted, low, end, i, limit);
      assert false;
    }
  }

  /** The sorted set holds every hit of the window. */
  lemma {:induction false} RedisHoldsAll(times: seq<real>, limit: int, window: nat, c: real)
    requires Nondecreasing(times) && (times != [] ==> c >= times[|times| - 1] - window as real)
    ensures Recent(RedisRun(times, limit, window), c) == Recent(times, c)
    decreases |times|
  {
    hide Recent, Nondecreasing;
    if times != [] {
      InitInOrder(times);
      var init, now := times[..|times| - 1], times[|times| - 1];
      RedisHoldsAll(init, limit, window, c);
      RecentTwice(RedisRun(init, limit, window), now - window as real, c);
      RecentOneMore(Recent(RedisRun(init, limit, window), now - window as real), now, c);
      RecentOneMore(init, now, c);
      assert times == init + [now];
    }
  }

  /** Admitted hits are among all hits, also beyond any cutoff. */
  lemma {:induction false} AdmittedAreFewer(times: seq<real>, limit: int, window: nat, c: real)
    ensures |Recent(MemoryRun(times, limit, window).1, c)| <= |Recent(times, c)|
    decreases |times|
  {
    if times != [] {
      var init, now := times[..|times| - 1], times[|times| - 1];
      AdmittedAreFewer(init, limit, window, c);
      RecentOneMore(MemoryRun(init, limit, window).1, now, c);
      RecentOneMore(init, now, c);
      assert times == init + [now];
    }
  }

  /** On the same hits, whatever the Redis backend admits the in-memory one admits too. */
  lemma RedisIsStricter(times: seq<real>, limit: int, window: nat)
    requires Nondecreasing(times) && times != [] && RedisAdmits(times, limit, window)
    ensures MemoryAdmits(times, limit, window)
  {
    hide Recent, MemoryRun, RedisRun;
    InitInOrder(times);
    var init, now := times[..|times| - 1], times[|times| - 1];
    var cutoff := now - window as real;
    var (bucket, admitted) := MemoryRun(init, limit, window);
    RedisHoldsAll(init, limit, window, cutoff);
    AdmittedAreFewer(init, limit, window, cutoff);
    if init == [] {
      EmptyRuns(limit, window);
    } else {
      BucketStands(init, limit, window);
    }
  }

  lemma EmptyRuns(limit: int, window: nat)
    ensures MemoryRun([], limit, window) == ([], [])
  {
  }

  /** Expiring the whole key a window after its last hit loses nothing a later hit would count. */
  lemma ExpiryIsInvisible(times: seq<real>, limit: int, window: nat, now: real)
    requires Nondecreasing(times) && times != [] && now >= times[|times| - 1] + window as real
    ensures HitRedis(RedisRun(times, limit, window), now, limit, window) == HitRedis([], now, limit, window)
  {
    hide Recent, RedisRun;
    var cutoff := now - window as real;
    RedisHoldsAll(times, limit, window, cutoff);
    NoneRecent(times, cutoff);
    NoneRecent([], cutoff);
  }

  lemma {:induction false} NoneRecent(ts: seq<real>, cutoff: real)
    requires forall i :: 0 <= i < |ts| ==> ts[i] <= cutoff
    ensures Recent(ts, cutoff) == []
  {
    if ts != [] {
      NoneRecent(ts[..|ts| - 1], cutoff);
    }
  }

  /** The Redis backend counts rejected hits, so it can refuse where the in-memory one admits. */
  lemma RejectedHitsCount()
    ensures MemoryAdmits([0.0, 1.0, 2.5], 1, 2) && !RedisAdmits([0.0, 1.0, 2.5], 1, 2)
  {
    var two := [0.0, 1.0];
    assert [0.0, 1.0, 2.5][..2] == two && two[..1] == [0.0];
    assert Recent([0.0], -1.0) == [0.0];
  }

  /** In time order what is later than a cutoff is what lies in the window up to now. */
  lemma {:induction false} RecentIsWithin(ts: seq<real>, cutoff: real, now: real)
    requires forall i :: 0 <= i < |ts| ==> ts[i] <= now
    ensures Recent(ts, cutoff) == Within(ts, cutoff, now)
  {
    if ts != [] {
      RecentIsWithin(ts[..|ts| - 1], cutoff, now);
    }
  }

  lemma LatestIsBound(ts: seq<real>, now: real)
    requires Latest(ts, now)
    ensures forall i :: 0 <= i < |ts| ==> ts[i] <= now
  {
  }

  lemma LastIsBound(ts: seq<real>)
    requires Nondecreasing(ts) && ts != []
    ensures forall i :: 0 <= i < |ts| ==> ts[i] <= ts[|ts| - 1]
  {
  }

  /**
   Exactly when the in-memory backend admits: fewer than limit admitted hits lie in the half-open window up to now.
   */
  lemma MemoryAdmitsIff(times: seq<real>, limit: int, window: nat)
    requires Nondecreasing(times) && times != []
    ensures var now, admitted := times[|times| - 1], MemoryRun(times[..|times| - 1], limit, window).1;
            MemoryAdmits(times, limit, window) <==> |Within(admitted, now - window as real, now)| < limit
  {
    hide Recent, Within, MemoryRun, Nondecreasing;
    InitInOrder(times);
    var init, now := times[..|times| - 1], times[|times| - 1];
    var admitted := MemoryRun(init, limit, window).1;
    if init == [] {
      EmptyRuns(limit, window);
    } else {
      BucketStands(init, limit, window);
      LatestLater(admitted, init[|init| - 1], now);
      LatestIsBound(admitted, now);
    }
    RecentIsWithin(admitted, now - window as real, now);
  }

  /** Exactly when the Redis backend admits: no more than limit hits, this one included, lie in that window. */
  lemma RedisAdmitsIff(times: seq<real>, limit: int, window: nat)
    requires Nondecreasing(times) && times != [] && window > 0
    ensures var now := times[|times| - 1];
            RedisAdmits(times, limit, window) <==> |Within(times, now - window as real, now)| <= limit
  {
    hide Recent, Within, RedisRun, Nondecreasing;
    InitInOrder(times);
    LastIsBound(times);
    var init, now := times[..|times| - 1], times[|times| - 1];
    RedisHoldsAll(init, limit, window, now - window as real);
    RecentOneMore(init, now, now - window as real);
    assert times == init + [now];
    RecentIsWithin(times, now - window as real, now);
  }
}
