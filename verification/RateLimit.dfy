/**
The fixed-window limiter: the Lua counter kept in Redis and the in-process fallback with its
bounded store. Time is real-valued; a window that opens at `t` is live during [t, t + window).
*/
module RateLimit {
  import opened Common

  type Key = string
  type Time = real

  datatype Window = Window(count: int, end: Time)
  type Store = map<Key, Window>

  const MAX_KEYS := 10_000

  predicate Live(m: Store, k: Key, now: Time) {
    k in m && now < m[k].end
  }

  // ----- the two counters -----

  /** The fallback's store after one call, eviction aside. */
  function MemoryAfter(m: Store, key: Key, window: int, now: Time): Store {
    if Live(m, key, now) then m[key := Window(m[key].count + 1, m[key].end)]
    else m[key := Window(1, now + window as real)]
  }

  /** The fallback never compares the request that opens a window with the limit. */
  predicate MemoryAllows(m: Store, key: Key, limit: int, now: Time) {
    Live(m, key, now) ==> m[key].count + 1 <= limit
  }

  /** INCR, then EXPIRE on the first increment; a non-positive expiry deletes the key at once. */
  function LuaAfter(r: Store, key: Key, window: int, now: Time): Store {
    if Live(r, key, now) then r[key := Window(r[key].count + 1, r[key].end)]
    else if window > 0 then r[key := Window(1, now + window as real)]
    else r - {key}
  }

  predicate LuaAllows(r: Store, key: Key, limit: int, now: Time) {
    (if Live(r, key, now) then r[key].count + 1 else 1) <= limit
  }

  // ----- runs -----

  /** A request, together with the keys the fallback evicts on its behalf. */
  datatype Request = Request(key: Key, window: int, limit: int, now: Time, evicted: set<Key>)

  function MemoryNext(m: Store, q: Request): Store {
    MemoryAfter(m - q.evicted, q.key, q.window, q.now)
  }

  predicate Granted(m: Store, q: Request) {
    MemoryAllows(m - q.evicted, q.key, q.limit, q.now)
  }

  function MemoryDecisions(m: Store, qs: seq<Request>): seq<bool>
    decreases |qs|
  {
    if qs == [] then [] else [Granted(m, qs[0])] + MemoryDecisions(MemoryNext(m, qs[0]), qs[1..])
  }

  function LuaDecisions(r: Store, qs: seq<Request>): seq<bool>
    decreases |qs|
  {
    if qs == [] then []
    else [LuaAllows(r, qs[0].key, qs[0].limit, qs[0].now)] +
         LuaDecisions(LuaAfter(r, qs[0].key, qs[0].window, qs[0].now), qs[1..])
  }

  ghost predicate Ordered(qs: seq<Request>) {
    forall i, j :: 0 <= i < j < |qs| ==> qs[i].now <= qs[j].now
  }

  /** No eviction along the run removes a window that is still live. */
  ghost predicate SparesLive(m: Store, qs: seq<Request>)
    decreases |qs|
  {
    qs != [] ==>
      && (forall k :: k in qs[0].evicted ==> !Live(m, k, qs[0].now))
      && SparesLive(MemoryNext(m, qs[0]), qs[1..])
  }

  // ----- the fallback decides like the Lua counter -----

  ghost predicate Agree(m: Store, r: Store, now: Time) {
    forall k :: (Live(m, k, now) <==> Live(r, k, now)) && (Live(m, k, now) ==> m[k] == r[k])
  }

  /** On one request the two differ exactly when the limit is below one and the request opens a window. */
  lemma SameDecisionIff(m: Store, r: Store, q: Request)
    requires Agree(m, r, q.now)
    requires forall k :: k in q.evicted ==> !Live(m, k, q.now)
    ensures (Granted(m, q) <==> LuaAllows(r, q.key, q.limit, q.now)) <==> (q.limit >= 1 || Live(r, q.key, q.now))
  {
  }

  lemma AgreeAfter(m: Store, r: Store, q: Request, later: Time)
    requires Agree(m, r, q.now) && q.now <= later
    requires forall k :: k in q.evicted ==> !Live(m, k, q.now)
    ensures Agree(MemoryNext(m, q), LuaAfter(r, q.key, q.window, q.now), later)
  {
  }

  /** Refinement: with every limit at least one, both counters give the same answers on any run. */
  lemma {:induction false} MemoryRefinesLua(m: Store, r: Store, qs: seq<Request>)
    requires Ordered(qs) && SparesLive(m, qs)
    requires forall i :: 0 <= i < |qs| ==> qs[i].limit >= 1
    requires qs != [] ==> Agree(m, r, qs[0].now)
    ensures MemoryDecisions(m, qs) == LuaDecisions(r, qs)
    decreases |qs|
  {
    if qs != [] {
      var q, rest := qs[0], qs[1..];
      SameDecisionIff(m, r, q);
      if rest != [] {
        assert q.now <= qs[1].now;
        AgreeAfter(m, r, q, rest[0].now);
      }
      MemoryRefinesLua(MemoryNext(m, q), LuaAfter(r, q.key, q.window, q.now), rest);
    }
  }

  /** Evicting dead windows is invisible: the run decides as if nothing had ever been evicted. */
  lemma EvictionInvisible(qs: seq<Request>, rs: seq<Request>)
    requires Ordered(qs) && SparesLive(map[], qs)
    requires |rs| == |qs| && forall i :: 0 <= i < |qs| ==> rs[i] == qs[i].(evicted := {})
    ensures MemoryDecisions(map[], qs) == MemoryDecisions(map[], rs)
  {
    EvictionInvisibleFrom(map[], map[], qs, rs);
  }

  lemma {:induction false} EvictionInvisibleFrom(m: Store, n: Store, qs: seq<Request>, rs: seq<Request>)
    requires Ordered(qs) && SparesLive(m, qs)
    requires |rs| == |qs| && forall i :: 0 <= i < |qs| ==> rs[i] == qs[i].(evicted := {})
    requires qs != [] ==> Agree(m, n, qs[0].now)
    ensures MemoryDecisions(m, qs) == MemoryDecisions(n, rs)
    decreases |qs|
  {
    if qs != [] {
      var q, rest := qs[0], qs[1..];
      var m', n' := MemoryNext(m, q), MemoryNext(n, rs[0]);
      assert n - rs[0].evicted == n;
      assert Live(m - q.evicted, q.key, q.now) == Live(m, q.key, q.now) == Live(n, q.key, q.now);
      if rest != [] {
        assert q.now <= qs[1].now;
        forall k
          ensures (Live(m', k, rest[0].now) <==> Live(n', k, rest[0].now))
          ensures Live(m', k, rest[0].now) ==> m'[k] == n'[k]
        {
          assert Live(m, k, q.now) <==> Live(n, k, q.now);
          assert Live(m, k, rest[0].now) ==> Live(m, k, q.now);
          assert Live(n, k, rest[0].now) ==> Live(n, k, q.now);
        }
      }
      EvictionInvisibleFrom(m', n', rest, rs[1..]);
    }
  }

  // ----- how much one key can be granted in any stretch of one window's length -----

  /** Grants to `k` at times in [a, b). */
  function Grants(m: Store, qs: seq<Request>, k: Key, a: Time, b: Time): nat
    decreases |qs|
  {
    if qs == [] then 0
    else (if qs[0].key == k && a <= qs[0].now < b && Granted(m, qs[0]) then 1 else 0) +
         Grants(MemoryNext(m, qs[0]), qs[1..], k, a, b)
  }

  /** All requests for `k` use the same window and limit. */
  ghost predicate Uniform(qs: seq<Request>, k: Key, window: int, limit: int) {
    forall i :: 0 <= i < |qs| && qs[i].key == k ==> qs[i].window == window && qs[i].limit == limit
  }

  ghost predicate AllFrom(qs: seq<Request>, t: Time) {
    forall i :: 0 <= i < |qs| ==> t <= qs[i].now
  }

  lemma {:induction false} NoneAfter(m: Store, qs: seq<Request>, k: Key, a: Time, b: Time)
    requires AllFrom(qs, b)
    ensures Grants(m, qs, k, a, b) == 0
    decreases |qs|
  {
    if qs != [] {
      assert b <= qs[0].now;
      NoneAfter(MemoryNext(m, qs[0]), qs[1..], k, a, b);
    }
  }

  /** No eviction along the run removes the window of `k` while it is live; other keys may lose theirs. */
  ghost predicate SparesKey(m: Store, qs: seq<Request>, k: Key)
    decreases |qs|
  {
    qs != [] ==>
      && (k in qs[0].evicted ==> !Live(m, k, qs[0].now))
      && SparesKey(MemoryNext(m, qs[0]), qs[1..], k)
  }

  lemma TailFacts(m: Store, qs: seq<Request>, k: Key, window: int, limit: int)
    requires qs != [] && Ordered(qs) && SparesKey(m, qs, k) && Uniform(qs, k, window, limit)
    ensures Ordered(qs[1..]) && SparesKey(MemoryNext(m, qs[0]), qs[1..], k) && Uniform(qs[1..], k, window, limit)
    ensures AllFrom(qs, qs[0].now) && AllFrom(qs[1..], qs[0].now)
  {
  }

  /** Until its end, a window with `count` requests behind it has limit - count grants left. */
  lemma {:induction false} InsideWindow(m: Store, qs: seq<Request>, k: Key, window: int, limit: int, a: Time, b: Time)
    requires Ordered(qs) && SparesKey(m, qs, k) && Uniform(qs, k, window, limit)
    requires k in m && m[k].count >= 1 && b <= m[k].end
    ensures Grants(m, qs, k, a, b) <= Max(0, limit - m[k].count)
    decreases |qs|
  {
    if qs != [] {
      TailFacts(m, qs, k, window, limit);
      if qs[0].now >= b {
        NoneAfter(m, qs, k, a, b);
      } else {
        assert Live(m, k, qs[0].now) && k !in qs[0].evicted;
        InsideWindow(MemoryNext(m, qs[0]), qs[1..], k, window, limit, a, b);
      }
    }
  }

  /** With no live window at time t, at most Max(1, limit) grants follow before t + window. */
  lemma {:induction false} FromFreshWindow(m: Store, qs: seq<Request>, k: Key, window: int, limit: int,
                                           a: Time, b: Time, t: Time)
    requires Ordered(qs) && SparesKey(m, qs, k) && Uniform(qs, k, window, limit)
    requires AllFrom(qs, t) && !Live(m, k, t) && b <= t + window as real
    ensures Grants(m, qs, k, a, b) <= Max(1, limit)
    decreases |qs|
  {
    if qs != [] {
      TailFacts(m, qs, k, window, limit);
      if qs[0].now >= b {
        NoneAfter(m, qs, k, a, b);
      } else {
        assert t <= qs[0].now;
        var m' := MemoryNext(m, qs[0]);
        if qs[0].key == k {
          InsideWindow(m', qs[1..], k, window, limit, a, b);
        } else {
          FromFreshWindow(m', qs[1..], k, window, limit, a, b, t);
        }
      }
    }
  }

  /** A live window and the one after it: together at most one opening short of twice the limit. */
  lemma {:induction false} AcrossWindows(m: Store, qs: seq<Request>, k: Key, window: int, limit: int, a: Time, b: Time)
    requires Ordered(qs) && SparesKey(m, qs, k) && Uniform(qs, k, window, limit)
    requires k in m && m[k].count >= 1 && b <= m[k].end + window as real
    ensures Grants(m, qs, k, a, b) <= Max(0, limit - m[k].count) + Max(1, limit)
    decreases |qs|
  {
    if qs != [] {
      TailFacts(m, qs, k, window, limit);
      if qs[0].now >= b {
        NoneAfter(m, qs, k, a, b);
      } else if qs[0].now >= m[k].end {
        FromFreshWindow(m, qs, k, window, limit, a, b, qs[0].now);
      } else {
        assert Live(m, k, qs[0].now) && k !in qs[0].evicted;
        AcrossWindows(MemoryNext(m, qs[0]), qs[1..], k, window, limit, a, b);
      }
    }
  }

  /** The requests for `k`. */
  function Asked(qs: seq<Request>, k: Key): nat {
    if qs == [] then 0 else (if qs[0].key == k then 1 else 0) + Asked(qs[1..], k)
  }

  function Min(a: int, b: int): int {
    if a < b then a else b
  }

  ghost predicate AllBefore(qs: seq<Request>, t: Time) {
    forall i :: 0 <= i < |qs| ==> qs[i].now < t
  }

  /** While a window lasts it grants exactly what is left of the limit, or all that is asked. */
  lemma {:induction false} InsideExactly(m: Store, qs: seq<Request>, k: Key, window: int, limit: int, a: Time)
    requires Ordered(qs) && SparesKey(m, qs, k) && Uniform(qs, k, window, limit) && AllFrom(qs, a)
    requires k in m && m[k].count >= 1 && AllBefore(qs, m[k].end)
    ensures Grants(m, qs, k, a, m[k].end) == Min(Asked(qs, k), Max(0, limit - m[k].count))
    decreases |qs|
  {
    if qs != [] {
      TailFacts(m, qs, k, window, limit);
      assert Live(m, k, qs[0].now) && k !in qs[0].evicted;
      InsideExactly(MemoryNext(m, qs[0]), qs[1..], k, window, limit, a);
    }
  }

  /** A key's first request opens a window, and of what is asked in it exactly the first max(1, limit) are granted. */
  lemma WindowGrantsExactly(m: Store, qs: seq<Request>, k: Key, window: int, limit: int)
    requires qs != [] && qs[0].key == k && !Live(m, k, qs[0].now)
    requires Ordered(qs) && SparesKey(m, qs, k) && Uniform(qs, k, window, limit)
    requires AllBefore(qs, qs[0].now + window as real)
    ensures Grants(m, qs, k, qs[0].now, qs[0].now + window as real) == Min(Asked(qs, k), Max(1, limit))
  {
    TailFacts(m, qs, k, window, limit);
    InsideExactly(MemoryNext(m, qs[0]), qs[1..], k, window, limit, qs[0].now);
  }

  ghost predicate Counted(m: Store) {
    forall k :: k in m ==> m[k].count >= 1
  }

  /** Burst bound: any half-open stretch of one window's length sees fewer than twice the limit granted. */
  lemma {:induction false} BurstBound(m: Store, qs: seq<Request>, k: Key, window: int, limit: int, a: Time)
    requires Ordered(qs) && SparesKey(m, qs, k) && Uniform(qs, k, window, limit) && Counted(m)
    ensures Grants(m, qs, k, a, a + window as real) <= 2 * Max(1, limit) - 1
    decreases |qs|
  {
    if qs != [] {
      TailFacts(m, qs, k, window, limit);
      if qs[0].now < a {
        BurstBound(MemoryNext(m, qs[0]), qs[1..], k, window, limit, a);
      } else if Live(m, k, qs[0].now) {
        AcrossWindows(m, qs, k, window, limit, a, a + window as real);
      } else {
        FromFreshWindow(m, qs, k, window, limit, a, a + window as real, qs[0].now);
      }
    }
  }

  // ----- the same bound for the Lua counter -----

  function LuaNext(r: Store, q: Request): Store {
    LuaAfter(r, q.key, q.window, q.now)
  }

  function LuaGrants(r: Store, qs: seq<Request>, k: Key, a: Time, b: Time): nat
    decreases |qs|
  {
    if qs == [] then 0
    else (if qs[0].key == k && a <= qs[0].now < b && LuaAllows(r, k, qs[0].limit, qs[0].now) then 1 else 0) +
         LuaGrants(LuaNext(r, qs[0]), qs[1..], k, a, b)
  }

  ghost predicate AgreeOn(m: Store, r: Store, k: Key, now: Time) {
    (Live(m, k, now) <==> Live(r, k, now)) && (Live(m, k, now) ==> m[k] == r[k])
  }

  function WithoutEviction(qs: seq<Request>): seq<Request> {
    seq(|qs|, i requires 0 <= i < |qs| => qs[i].(evicted := {}))
  }

  lemma OneRequestAlike(m: Store, r: Store, q: Request, k: Key, later: Time)
    requires AgreeOn(m, r, k, q.now) && q.evicted == {} && q.now <= later
    ensures AgreeOn(MemoryNext(m, q), LuaNext(r, q), k, later)
    ensures q.key == k && q.limit >= 1 ==> (Granted(m, q) <==> LuaAllows(r, k, q.limit, q.now))
  {
    assert m - q.evicted == m;
  }

  /** For one key with limits of at least one, the script grants what the fallback would grant without evicting. */
  lemma {:induction false} LuaGrantsAlike(m: Store, r: Store, qs: seq<Request>, k: Key, window: int, limit: int,
                                          a: Time, b: Time)
    requires Ordered(qs) && Uniform(qs, k, window, limit) && limit >= 1
    requires qs != [] ==> AgreeOn(m, r, k, qs[0].now)
    ensures LuaGrants(r, qs, k, a, b) == Grants(m, WithoutEviction(qs), k, a, b)
    decreases |qs|
  {
    if qs != [] {
      var rs := WithoutEviction(qs);
      var later := if |qs| > 1 then qs[1].now else qs[0].now;
      OneRequestAlike(m, r, rs[0], k, later);
      assert LuaNext(r, qs[0]) == LuaNext(r, rs[0]);
      assert rs[1..] == WithoutEviction(qs[1..]);
      LuaGrantsAlike(MemoryNext(m, rs[0]), LuaNext(r, qs[0]), qs[1..], k, window, limit, a, b);
    }
  }

  lemma {:induction false} NothingEvicted(m: Store, qs: seq<Request>, k: Key)
    requires forall i :: 0 <= i < |qs| ==> qs[i].evicted == {}
    ensures SparesKey(m, qs, k)
    decreases |qs|
  {
    if qs != [] { NothingEvicted(MemoryNext(m, qs[0]), qs[1..], k); }
  }

  lemma {:induction false} NoLuaGrants(r: Store, qs: seq<Request>, k: Key, window: int, limit: int, a: Time, b: Time)
    requires Uniform(qs, k, window, limit) && limit < 1 && Counted(r)
    ensures LuaGrants(r, qs, k, a, b) == 0
    decreases |qs|
  {
    if qs != [] { NoLuaGrants(LuaNext(r, qs[0]), qs[1..], k, window, limit, a, b); }
  }

  /** The script's burst bound: fewer than twice the limit, and nothing at all for a limit below one. */
  lemma LuaBurstBound(r: Store, qs: seq<Request>, k: Key, window: int, limit: int, a: Time)
    requires Ordered(qs) && Uniform(qs, k, window, limit) && Counted(r)
    ensures LuaGrants(r, qs, k, a, a + window as real) <= if limit >= 1 then 2 * limit - 1 else 0
  {
    if limit >= 1 {
      LuaGrantsAlike(r, r, qs, k, window, limit, a, a + window as real);
      NothingEvicted(r, WithoutEviction(qs), k);
      BurstBound(r, WithoutEviction(qs), k, window, limit, a);
    } else {
      NoLuaGrants(r, qs, k, window, limit, a, a + window as real);
    }
  }

  // ----- the bound is attained -----

  function Copies(q: Request, n: nat): seq<Request> {
    seq(n, i => q)
  }

  /** A store holding one key's window only. */
  function Only(k: Key, count: int, end: Time): Store {
    map[k := Window(count, end)]
  }

  lemma OneStep(q: Request, count: int, end: Time)
    requires q.evicted == {}
    ensures MemoryNext(Only(q.key, count, end), q) ==
            if q.now < end then Only(q.key, count + 1, end) else Only(q.key, 1, q.now + q.window as real)
    ensures Granted(Only(q.key, count, end), q) <==> (q.now < end ==> count + 1 <= q.limit)
  {
  }

  /** `n` further requests inside a live window with room for all of them. */
  lemma {:induction false} FillWindow(q: Request, count: int, end: Time, n: nat, rest: seq<Request>, a: Time, b: Time)
    requires q.evicted == {} && q.now < end && a <= q.now < b && count + n <= q.limit
    ensures Grants(Only(q.key, count, end), Copies(q, n) + rest, q.key, a, b) ==
            n + Grants(Only(q.key, count + n, end), rest, q.key, a, b)
    decreases n
  {
    var qs := Copies(q, n) + rest;
    if n == 0 {
      assert qs == rest;
    } else {
      assert qs[0] == q && qs[1..] == Copies(q, n - 1) + rest;
      OneStep(q, count, end);
      FillWindow(q, count + 1, end, n - 1, rest, a, b);
    }
  }

  /** `limit` requests at once on a window that has just run out. */
  lemma FreshBurst(q: Request, count: int, a: Time, b: Time)
    requires q.evicted == {} && a <= q.now < b && q.window >= 1 && q.limit >= 1
    ensures Grants(Only(q.key, count, q.now), Copies(q, q.limit), q.key, a, b) == q.limit
  {
    var qs := Copies(q, q.limit);
    assert qs[0] == q && qs[1..] == Copies(q, q.limit - 1) + [];
    OneStep(q, count, q.now);
    FillWindow(q, 1, q.now + q.window as real, q.limit - 1, [], a, b);
  }

  ghost predicate Attains(qs: seq<Request>, a: Time, k: Key, window: int, limit: int) {
    && Ordered(qs) && SparesLive(map[], qs) && Uniform(qs, k, window, limit)
    && Grants(map[], qs, k, a, a + window as real) == 2 * limit - 1
  }

  /** Open a window, exhaust it half a second before it ends, then exhaust the next one as it opens. */
  function BurstRequests(k: Key, window: int, limit: int): seq<Request>
    requires limit >= 1
  {
    var w := window as real;
    var opening := Request(k, window, limit, 0.0, {});
    [opening] + (Copies(opening.(now := w - 0.5), limit - 1) + Copies(opening.(now := w), limit))
  }

  lemma BurstShape(k: Key, window: int, limit: int)
    requires window >= 1 && limit >= 1
    ensures var qs := BurstRequests(k, window, limit);
            Ordered(qs) && Uniform(qs, k, window, limit) && forall i :: 0 <= i < |qs| ==> qs[i].evicted == {}
  {
  }

  lemma BurstGrants(k: Key, window: int, limit: int)
    requires window >= 1 && limit >= 1
    ensures var a := window as real - 0.5;
            Grants(map[], BurstRequests(k, window, limit), k, a, a + window as real) == 2 * limit - 1
  {
    var w := window as real;
    var a, b := w - 0.5, w - 0.5 + w;
    var opening := Request(k, window, limit, 0.0, {});
    var late, next := opening.(now := a), opening.(now := w);
    var rest := Copies(late, limit - 1) + Copies(next, limit);
    var qs := BurstRequests(k, window, limit);
    assert MemoryNext(map[], opening) == Only(k, 1, w);
    FillWindow(late, 1, w, limit - 1, Copies(next, limit), a, b);
    FreshBurst(next, limit, a, b);
    assert qs[0] == opening && qs[1..] == rest;
    assert Grants(map[], qs, k, a, b) == Grants(Only(k, 1, w), rest, k, a, b);
    assert Grants(Only(k, 1, w), rest, k, a, b) == limit - 1 + limit;
  }

  /** The bound is attained. */
  lemma BurstAttained(k: Key, window: int, limit: int)
    requires window >= 1 && limit >= 1
    ensures exists qs: seq<Request>, a: Time :: Attains(qs, a, k, window, limit)
  {
    var qs := BurstRequests(k, window, limit);
    BurstShape(k, window, limit);
    BurstGrants(k, window, limit);
    NoEvictionSpares(map[], qs);
    assert Attains(qs, window as real - 0.5, k, window, limit);
  }

  lemma {:induction false} NoEvictionSpares(m: Store, qs: seq<Request>)
    requires forall i :: 0 <= i < |qs| ==> qs[i].evicted == {}
    ensures SparesLive(m, qs)
    decreases |qs|
  {
    if qs != [] {
      NoEvictionSpares(MemoryNext(m, qs[0]), qs[1..]);
    }
  }

  // ----- the fallback itself: a dictionary updated in place -----

  /** The key whose window ends first. */
  method Oldest(m: Store) returns (oldest: Key)
    requires m != map[]
    ensures oldest in m && forall k :: k in m ==> m[oldest].end <= m[k].end
  {
    oldest :| oldest in m;
    var todo := m.Keys - {oldest};
    while todo != {}
      invariant todo <= m.Keys && oldest in m
      invariant forall k :: k in m && k !in todo ==> m[oldest].end <= m[k].end
      decreases |todo|
    {
      var k :| k in todo;
      todo := todo - {k};
      if m[k].end < m[oldest].end {
        oldest := k;
      }
    }
  }

  ghost function Unexpired(m: Store, now: Time): set<Key> {
    set k | k in m && now <= m[k].end
  }

  lemma DropTwice(m: Store, a: set<Key>, b: set<Key>)
    ensures m - a - b == m - (a + b)
  {
  }

  /** What went ends no later than what stayed. */
  ghost predicate SoonestWent(start: Store, evicted: set<Key>, store: Store) {
    forall k, j :: k in evicted && j in store && k in start ==> start[k].end <= store[j].end
  }

  lemma OneMoreWent(start: Store, evicted: set<Key>, store: Store, oldest: Key)
    requires store == start - evicted && SoonestWent(start, evicted, store)
    requires oldest in store && forall k :: k in store ==> store[oldest].end <= store[k].end
    ensures store - {oldest} == start - (evicted + {oldest})
    ensures SoonestWent(start, evicted + {oldest}, store - {oldest})
    ensures |store - {oldest}| == |store| - 1
  {
    DropTwice(start, evicted, {oldest});
    assert (store - {oldest}).Keys == store.Keys - {oldest};
  }

  class MemoryLimiter {
    var store: Store

    constructor ()
      ensures store == map[]
    {
      store := map[];
    }

    /** While too many are left, the window that ends first goes. */
    method DropOldest() returns (ghost evicted: set<Key>)
      modifies this
      ensures evicted <= old(store).Keys && store == old(store) - evicted
      ensures |store| < MAX_KEYS
      ensures |old(store)| < MAX_KEYS ==> evicted == {}
      ensures SoonestWent(old(store), evicted, store)
    {
      evicted := {};
      assert store == old(store) - {};
      while |store| >= MAX_KEYS
        invariant evicted <= old(store).Keys && store == old(store) - evicted
        invariant |old(store)| < MAX_KEYS ==> evicted == {}
        invariant SoonestWent(old(store), evicted, store)
        decreases |store|
      {
        var oldest := Oldest(store);
        OneMoreWent(old(store), evicted, store, oldest);
        store := store - {oldest};
        evicted := evicted + {oldest};
      }
    }

    /** Makes room for one key: nothing below the cap; else dead windows go, then those ending soonest. */
    method EvictIfNeeded(now: Time) returns (ghost evicted: set<Key>)
      modifies this
      ensures evicted <= old(store).Keys && store == old(store) - evicted
      ensures |store| < MAX_KEYS
      ensures |old(store)| < MAX_KEYS ==> evicted == {}
      ensures |old(store)| >= MAX_KEYS ==> forall k :: k in store ==> now <= store[k].end
      ensures |Unexpired(old(store), now)| < MAX_KEYS ==> evicted !! Unexpired(old(store), now)
      ensures forall k, j :: k in evicted && k in Unexpired(old(store), now) && j in store ==>
                old(store)[k].end <= store[j].end
    {
      evicted := {};
      if |store| < MAX_KEYS {
        assert store == old(store) - {};
        return;
      }
      var expired := set k | k in store && store[k].end < now;
      store := store - expired;
      assert store.Keys == Unexpired(old(store), now);
      ghost var trimmed := DropOldest();
      DropTwice(old(store), expired, trimmed);
      evicted := expired + trimmed;
    }

    /** One fallback check; `evicted` is what it had to drop first. */
    method Check(key: Key, window: int, limit: int, now: Time)
      returns (allowed: bool, retryAfter: int, ghost evicted: set<Key>)
      requires |store| <= MAX_KEYS
      modifies this
      ensures var q := Request(key, window, limit, now, evicted);
              store == MemoryNext(old(store), q) && allowed == Granted(old(store), q)
      ensures var opens := key in evicted || key !in old(store) || now >= old(store)[key].end;
              && (allowed <==> opens || old(store)[key].count + 1 <= limit)
              && store - {key} == old(store) - evicted - {key} && key in store
              && store[key] == if opens then Window(1, now + window as real)
                               else Window(old(store)[key].count + 1, old(store)[key].end)
      ensures |store| <= MAX_KEYS
      ensures |Unexpired(old(store), now)| < MAX_KEYS ==> forall k :: k in evicted ==> !Live(old(store), k, now)
      ensures allowed ==> retryAfter == 0
      ensures !allowed ==> key in store && retryAfter >= 0 &&
                           retryAfter as real <= store[key].end - now < retryAfter as real + 1.0
    {
      evicted := EvictIfNeeded(now);
      ghost var kept := store;
      if key !in store {
        store := store[key := Window(1, now + window as real)];
        return true, 0, evicted;
      }
      var Window(count, end) := store[key];
      if now >= end {
        store := store[key := Window(1, now + window as real)];
        return true, 0, evicted;
      }
      count := count + 1;
      store := store[key := Window(count, end)];
      if count > limit {
        return false, Max(0, (end - now).Floor), evicted;
      }
      return true, 0, evicted;
    }
  }
}
