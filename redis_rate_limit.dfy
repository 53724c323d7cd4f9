/**
 * The Redis-backed rate limiter: one counter per wallet address under the
 * key `ratelimit:<address>`, read with GET, bumped with INCR and given an
 * expiry with EXPIRE on the first call of a window. The Redis server is
 * modelled as a table from key to (counter, expiry instant) observed at an
 * explicit instant `now`; each call of the limiter is atomic.
 */
module RedisRateLimit {
  import opened Wrappers
  import Text
  import Js

  /** The default arguments of `checkRateLimit`. */
  const DefaultMaxRequests: int := 10
  const DefaultWindowMs: int := 60 * 60 * 1000

  const KeyPrefix: string := "ratelimit:"

  /** A counter and the instant (in milliseconds) at which it expires, if any. */
  datatype Entry = Entry(count: int, expiresAt: Option<int>)

  type Store = map<string, Entry>

  /** What `checkRateLimit` resolves to. */
  datatype Decision = Decision(allowed: bool, remaining: int, resetTime: int)

  /** The key a wallet's counter lives under. */
  function Key(walletAddress: string): (k: string)
    ensures Text.StartsWith(k, KeyPrefix) && k[|KeyPrefix|..] == walletAddress
  {
    KeyPrefix + walletAddress
  }

  /** Distinct wallets never share a counter. */
  lemma KeyInjective(a: string, b: string)
    requires Key(a) == Key(b)
    ensures a == b
  {
    assert a == Key(a)[|KeyPrefix|..];
  }

  /** A key exists and its expiry, if it has one, has not passed. */
  predicate Live(store: Store, key: string, now: int) {
    key in store && (store[key].expiresAt.None? || now <= store[key].expiresAt.value)
  }

  /** `GET key`: the counter in decimal, or nil for a missing or expired key. */
  function GetReply(store: Store, key: string, now: int): (r: Option<string>)
    ensures r.Some? <==> Live(store, key, now)
  {
    if Live(store, key, now) then Some(Text.IntToString(store[key].count)) else None
  }

  /** `INCR key`: a missing or expired key restarts at 1 with no expiry; a live one keeps its expiry. */
  function AfterIncr(store: Store, key: string, now: int): (r: Store)
    ensures key in r && r[key].count == (if Live(store, key, now) then store[key].count + 1 else 1)
    ensures Live(store, key, now) ==> r[key].expiresAt == store[key].expiresAt
    ensures !Live(store, key, now) ==> r[key].expiresAt.None?
    ensures r.Keys == store.Keys + {key}
    ensures forall k | k in store && k != key :: r[k] == store[k]
  {
    if Live(store, key, now) then store[key := store[key].(count := store[key].count + 1)]
    else store[key := Entry(1, None)]
  }

  /**
   * `EXPIRE key seconds`: a live key expires `seconds` from now; a
   * non-positive duration deletes it at once; a missing key is left alone.
   */
  function AfterExpire(store: Store, key: string, seconds: int, now: int): (r: Store)
    ensures !Live(store, key, now) ==> r == store
    ensures Live(store, key, now) && seconds <= 0 ==> r == store - {key}
    ensures Live(store, key, now) && seconds > 0 ==>
      r == store[key := Entry(store[key].count, Some(now + seconds * 1000))]
  {
    if !Live(store, key, now) then store
    else if seconds <= 0 then store - {key}
    else store[key := store[key].(expiresAt := Some(now + seconds * 1000))]
  }

  /** `TTL key`: -2 for a missing key, -1 for one without expiry, else the seconds left, rounded. */
  function TtlReply(store: Store, key: string, now: int): (t: int)
    ensures !Live(store, key, now) <==> t == -2
    ensures Live(store, key, now) && store[key].expiresAt.None? <==> t == -1
    ensures Live(store, key, now) && store[key].expiresAt.Some? ==>
      t >= 0 && t * 1000 - 500 <= store[key].expiresAt.value - now < t * 1000 + 500
  {
    if !Live(store, key, now) then -2
    else if store[key].expiresAt.None? then -1
    else (store[key].expiresAt.value - now + 500) / 1000
  }

  /**
   * `current ? parseInt(current) : 0`: the counter read back from the
   * decimal text GET returns, and 0 for a missing key.
   */
  function ReadCount(store: Store, key: string, now: int): (count: int)
    ensures Live(store, key, now) ==> count == store[key].count
    ensures !Live(store, key, now) ==> count == 0
  {
    var current := GetReply(store, key, now);
    if Js.Truthy(current) then
      Text.ParseIntOfIntToString(store[key].count);
      Text.ParseInt(current.value).value
    else
      0
  }

  /** One call of `checkRateLimit(walletAddress, maxRequests, windowMs)` at instant `now`. */
  function Check(store: Store, walletAddress: string, maxRequests: int, windowMs: int, now: int): (Decision, Store) {
    var key := Key(walletAddress);
    var count := ReadCount(store, key, now);
    if count >= maxRequests then
      (Decision(false, 0, now + TtlReply(store, key, now) * 1000), store)
    else
      var counted := AfterIncr(store, key, now);
      var store' := if count == 0 then AfterExpire(counted, key, windowMs / 1000, now) else counted;
      (Decision(true, maxRequests - count - 1, now + windowMs), store')
  }

  /** The Redis server the limiter talks to. */
  class RedisStore {
    var entries: Store

    constructor (initial: Store)
      ensures entries == initial
    {
      entries := initial;
    }

    method Get(key: string, now: int) returns (r: Option<string>)
      ensures r == GetReply(entries, key, now)
    {
      r := GetReply(entries, key, now);
    }

    method Incr(key: string, now: int)
      modifies this
      ensures entries == AfterIncr(old(entries), key, now)
    {
      entries := AfterIncr(entries, key, now);
    }

    method Expire(key: string, seconds: int, now: int)
      modifies this
      ensures entries == AfterExpire(old(entries), key, seconds, now)
    {
      entries := AfterExpire(entries, key, seconds, now);
    }

    method Ttl(key: string, now: int) returns (t: int)
      ensures t == TtlReply(entries, key, now)
    {
      t := TtlReply(entries, key, now);
    }
  }

  /** `checkRateLimit` against the server `redis`, step by step. */
  method CheckRateLimit(redis: RedisStore, walletAddress: string, maxRequests: int, windowMs: int, now: int)
    returns (d: Decision)
    modifies redis
    ensures (d, redis.entries) == Check(old(redis.entries), walletAddress, maxRequests, windowMs, now)
  {
    var key := KeyPrefix + walletAddress;
    assert key == Key(walletAddress);
    var current := redis.Get(key, now);
    var count := 0;
    if current.Some? && current.value != "" {
      Text.ParseIntOfIntToString(redis.entries[key].count);
      count := Text.ParseInt(current.value).value;
    }
    assert count == ReadCount(old(redis.entries), key, now);
    if count >= maxRequests {
      var ttl := redis.Ttl(key, now);
      return Decision(false, 0, now + ttl * 1000);
    }
    redis.Incr(key, now);
    if count == 0 {
      redis.Expire(key, windowMs / 1000, now);
    }
    return Decision(true, maxRequests - count - 1, now + windowMs);
  }

  /** A full counter rejects with nothing remaining, reports when its key expires, and counts nothing. */
  lemma CheckRejectsWhenFull(store: Store, walletAddress: string, maxRequests: int, windowMs: int, now: int)
    requires ReadCount(store, Key(walletAddress), now) >= maxRequests
    ensures var (d, store') := Check(store, walletAddress, maxRequests, windowMs, now);
      && store' == store
      && d == Decision(false, 0, now + TtlReply(store, Key(walletAddress), now) * 1000)
  {
  }

  /**
   * Below the ceiling the counter goes up by exactly one and `remaining`
   * is what is left after this call; the window is reported as starting now.
   */
  lemma CheckCounts(store: Store, walletAddress: string, maxRequests: int, windowMs: int, now: int)
    requires ReadCount(store, Key(walletAddress), now) < maxRequests
    requires ReadCount(store, Key(walletAddress), now) > 0 || windowMs >= 1000
    ensures var key := Key(walletAddress);
      var count := ReadCount(store, key, now);
      var (d, store') := Check(store, walletAddress, maxRequests, windowMs, now);
      && d == Decision(true, maxRequests - count - 1, now + windowMs)
      && Live(store', key, now)
      && store'[key].count == count + 1
  {
  }

  /**
   * The expiry is set only by the first call of a window, to the whole
   * seconds of `windowMs` from now; later calls leave it where it was.
   */
  lemma CheckSetsExpiryOnFirstCall(store: Store, walletAddress: string, maxRequests: int, windowMs: int, now: int)
    requires ReadCount(store, Key(walletAddress), now) < maxRequests
    ensures var key := Key(walletAddress);
      var (_, store') := Check(store, walletAddress, maxRequests, windowMs, now);
      && (!Live(store, key, now) && windowMs >= 1000 ==>
            store'[key] == Entry(1, Some(now + (windowMs / 1000) * 1000)))
      && (Live(store, key, now) && store[key].count != 0 ==>
            store'[key].expiresAt == store[key].expiresAt)
  {
  }

  /**
   * A window shorter than one second truncates to an expiry of zero
   * seconds, which deletes the counter: such a limiter never rejects a
   * wallet that starts from a missing key.
   */
  lemma SubSecondWindowKeepsNoCounter(store: Store, walletAddress: string, maxRequests: int, windowMs: int, now: int)
    requires 0 <= windowMs < 1000 && maxRequests > 0
    requires !Live(store, Key(walletAddress), now)
    ensures var (d, store') := Check(store, walletAddress, maxRequests, windowMs, now);
      d.allowed && Key(walletAddress) !in store'
  {
  }

  /**
   * `checkRateLimit(walletAddress)` with its default arguments: a wallet's
   * first call opens a counter that expires in one hour and leaves 9 calls,
   * and a live counter that has reached 10 is refused and left as it is.
   */
  lemma DefaultArguments(store: Store, walletAddress: string, now: int)
    ensures var (d, store') := Check(store, walletAddress, DefaultMaxRequests, DefaultWindowMs, now);
      !Live(store, Key(walletAddress), now) ==>
        && d == Decision(true, 9, now + 3600000)
        && store'[Key(walletAddress)] == Entry(1, Some(now + 3600000))
    ensures var (d, store') := Check(store, walletAddress, DefaultMaxRequests, DefaultWindowMs, now);
      Live(store, Key(walletAddress), now) && store[Key(walletAddress)].count == 10 ==>
        && !d.allowed && d.remaining == 0
        && store' == store
  {
    if !Live(store, Key(walletAddress), now) {
      CheckSetsExpiryOnFirstCall(store, walletAddress, DefaultMaxRequests, DefaultWindowMs, now);
    } else if store[Key(walletAddress)].count == 10 {
      CheckRejectsWhenFull(store, walletAddress, DefaultMaxRequests, DefaultWindowMs, now);
    }
  }

  /** A call touches no other wallet's counter. */
  lemma CheckFrame(store: Store, walletAddress: string, maxRequests: int, windowMs: int, now: int)
    ensures var (_, store') := Check(store, walletAddress, maxRequests, windowMs, now);
      forall k | k in store && k != Key(walletAddress) :: k in store' && store'[k] == store[k]
  {
  }

  /** Every counter the limiter creates carries an expiry. */
  predicate AllExpiring(store: Store) {
    forall k | k in store :: store[k].expiresAt.Some?
  }

  /** No live counter exceeds the ceiling. */
  predicate WithinCeiling(store: Store, maxRequests: int, now: int) {
    forall k | k in store && Live(store, k, now) :: store[k].count <= maxRequests
  }

  /**
   * Starting from a store where every counter expires, calls keep it so, and
   * a rejected call then reports a reset instant no earlier than now (with a
   * ceiling of zero or less, a missing key is rejected with TTL -2, two
   * seconds in the past).
   */
  lemma CheckKeepsExpiry(store: Store, walletAddress: string, maxRequests: int, windowMs: int, now: int)
    requires AllExpiring(store) && maxRequests > 0
    ensures var (d, store') := Check(store, walletAddress, maxRequests, windowMs, now);
      && AllExpiring(store')
      && (!d.allowed ==> d.resetTime >= now)
  {
    var key := Key(walletAddress);
    var count := ReadCount(store, key, now);
    if count < maxRequests {
      var counted := AfterIncr(store, key, now);
      if count == 0 {
        var store' := AfterExpire(counted, key, windowMs / 1000, now);
        forall k | k in store'
          ensures store'[k].expiresAt.Some?
        {
          if k != key {
            assert store'[k] == store[k];
          }
        }
      } else {
        assert Live(store, key, now);
        assert AllExpiring(counted);
      }
    } else if Live(store, key, now) {
      assert store[key].expiresAt.Some?;
    }
  }

  /**
   * With the same ceiling on every call, no live counter ever passes it:
   * the ceiling is an invariant of the limiter at a fixed instant.
   */
  lemma CheckKeepsCeiling(store: Store, walletAddress: string, maxRequests: int, windowMs: int, now: int)
    requires WithinCeiling(store, maxRequests, now)
    ensures WithinCeiling(Check(store, walletAddress, maxRequests, windowMs, now).1, maxRequests, now)
  {
    var key := Key(walletAddress);
    var store' := Check(store, walletAddress, maxRequests, windowMs, now).1;
    forall k | k in store' && Live(store', k, now)
      ensures store'[k].count <= maxRequests
    {
      if k != key {
        assert Live(store, k, now);
      }
    }
  }
}
