/**
 The Redis side of the cache service (src/cache/cache.service.ts) and its keys
 (src/cache/cache-keys.ts). Every command may fail; other clients may change the store between the
 commands of one call.
 */
module Cache {
  import opened Wrappers
  import opened JsText

  /** A stored text and the millisecond at which it expires, if it does. */
  datatype Entry = Entry(text: JsString, until: Option<int>)

  type Store = map<JsString, Entry>

  predicate Live(e: Entry, now: int) { e.until.None? || now < e.until.value }

  /** GET. */
  function Lookup(store: Store, key: JsString, now: int): Option<JsString> {
    if key in store && Live(store[key], now) then Some(store[key].text) else None
  }

  /** A stored text is read back until its time to live is over, and no other key's reading changes. */
  lemma StoredUntil(store: Store, key: JsString, text: JsString, setAt: int, ttlMs: int, other: JsString, now: int)
    ensures var after := store[key := Entry(text, Some(setAt + ttlMs))];
      (Lookup(after, key, now) == Some(text) <==> now - setAt < ttlMs) &&
      (Lookup(after, key, now).Some? ==> now - setAt < ttlMs) &&
      Lookup(store[key := Entry(text, None)], key, now) == Some(text) &&
      Lookup(store - {key}, key, now) == None &&
      (other != key ==> Lookup(after, other, now) == Lookup(store, other, now))
  {}

  // ---------------------------------------------------------------- version counters

  /** Number(text) || 0, for the texts INCR leaves. */
  function AsNumber(text: JsString): nat { if AllDecimal(text) then DecimalValue(text) else 0 }

  function VersionIn(store: Store, key: JsString, now: int): nat {
    var found := Lookup(store, key, now);
    if found.Some? then AsNumber(found.value) else 0
  }

  predicate HoldsNumber(store: Store, key: JsString, now: int) {
    var found := Lookup(store, key, now);
    found.Some? ==> AllDecimal(found.value)
  }

  /** INCR; it refuses a text that is no number. */
  function Incr(store: Store, key: JsString, now: int): Option<Store> {
    var found := Lookup(store, key, now);
    if found.None? then Some(store[key := Entry(Render(1, 10), None)])
    else if !AllDecimal(found.value) then None
    else Some(store[key := store[key].(text := Render(DecimalValue(found.value) + 1, 10))])
  }

  /** INCR raises the version by one, keeps the counter a number and touches no other key. */
  lemma IncrRaises(store: Store, key: JsString, now: int)
    requires HoldsNumber(store, key, now)
    ensures var after := Incr(store, key, now);
      after.Some? && HoldsNumber(after.value, key, now) &&
      VersionIn(after.value, key, now) == VersionIn(store, key, now) + 1 &&
      after.value.Keys == store.Keys + {key} &&
      forall other :: other in store && other != key ==> after.value[other] == store[other]
  {
    DecimalRoundTrip(1);
    var found := Lookup(store, key, now);
    if found.Some? && AllDecimal(found.value) { DecimalRoundTrip(DecimalValue(found.value) + 1); }
  }

  // ---------------------------------------------------------------- keys

  /** "booking:rooms:search:v" */
  const SEARCH_PREFIX: JsString :=
    [98, 111, 111, 107, 105, 110, 103, 58, 114, 111, 111, 109, 115, 58, 115, 101, 97, 114, 99, 104, 58, 118]

  /** "booking:rooms:search:version" */
  const SEARCH_VERSION: JsString := SEARCH_PREFIX + [101, 114, 115, 105, 111, 110]

  /** The key of one search result: the version and the digest of the normalised parameters. */
  function RoomsSearchKey(version: nat, digest: JsString): JsString {
    SEARCH_PREFIX + Render(version, 10) + [COLON] + digest
  }

  lemma CancelPrefix<T>(p: seq<T>, a: seq<T>, b: seq<T>)
    requires p + a == p + b
    ensures a == b
  {
    assert (p + a)[|p|..] == a && (p + b)[|p|..] == b;
  }

  /** The length of the text before the first separator. */
  function HeadLength(s: JsString, sep: CodeUnit): (n: nat)
    ensures n <= |s|
  {
    if s == [] || s[0] == sep then 0 else 1 + HeadLength(s[1..], sep)
  }

  lemma {:induction false} HeadEndsAtSeparator(head: JsString, rest: JsString, sep: CodeUnit)
    requires sep !in head
    ensures HeadLength(head + [sep] + rest, sep) == |head|
  {
    if head != [] {
      assert (head + [sep] + rest)[1..] == head[1..] + [sep] + rest;
      HeadEndsAtSeparator(head[1..], rest, sep);
    }
  }

  /** A separator that occurs in neither head splits a text in one way only. */
  lemma SplitsOnce(a: JsString, b: JsString, x: JsString, y: JsString, sep: CodeUnit)
    requires sep !in a && sep !in b && a + [sep] + x == b + [sep] + y
    ensures a == b && x == y
  {
    var s, t := a + [sep] + x, b + [sep] + y;
    HeadEndsAtSeparator(a, x, sep);
    HeadEndsAtSeparator(b, y, sep);
    assert a == s[..|a|] && b == t[..|b|];
    assert x == s[|a| + 1..] && y == t[|b| + 1..];
  }

  lemma RenderedHasNoColon(n: nat)
    ensures COLON !in Render(n, 10)
  {
    DecimalRoundTrip(n);
  }

  /** A search key tells its version and its digest apart from all others. */
  lemma KeysDecode(v: nat, d: JsString, v': nat, d': JsString)
    requires RoomsSearchKey(v, d) == RoomsSearchKey(v', d')
    ensures v == v' && d == d'
  {
    var a, b := Render(v, 10), Render(v', 10);
    assert RoomsSearchKey(v, d) == SEARCH_PREFIX + (a + [COLON] + d);
    assert RoomsSearchKey(v', d') == SEARCH_PREFIX + (b + [COLON] + d');
    CancelPrefix(SEARCH_PREFIX, a + [COLON] + d, b + [COLON] + d');
    RenderedHasNoColon(v);
    RenderedHasNoColon(v');
    SplitsOnce(a, b, d, d', COLON);
    DecimalRoundTrip(v);
    DecimalRoundTrip(v');
  }

  /** No search key is the version key, so storing a result never changes the version. */
  lemma NoKeyIsTheVersion(v: nat, d: JsString)
    ensures RoomsSearchKey(v, d) != SEARCH_VERSION
  {
    DecimalRoundTrip(v);
    var n := |SEARCH_PREFIX|;
    assert RoomsSearchKey(v, d)[n] == Render(v, 10)[0];
    assert IsDecimalDigit(Render(v, 10)[0]);
    assert SEARCH_VERSION[n] == 101;
  }

  // ---------------------------------------------------------------- the service

  class Redis {
    var store: Store

    constructor ()
      ensures store == map[]
    {
      store := map[];
    }
  }

  datatype Status = HIT | MISS | BYPASS

  datatype CacheReply<E> = Data(text: JsString, status: Status) | LoaderFailed(error: E)

  datatype CacheStats = CacheStats(hits: nat, misses: nat, bypasses: nat, invalidations: nat)

  class CacheService {
    const redis: Redis
    const configured: bool
    var ready: bool
    var stats: CacheStats

    constructor (redis: Redis, configured: bool)
      ensures this.redis == redis && this.configured == configured && !ready && stats == CacheStats(0, 0, 0, 0)
    {
      this.redis, this.configured := redis, configured;
      ready, stats := false, CacheStats(0, 0, 0, 0);
    }

    predicate Reachable()
      reads this
    {
      configured && ready
    }

    /**
     Read through the cache. Without Redis the bypass loader answers and nothing is stored; a hit
     asks no loader; a miss stores exactly what the loader gave, for the drawn time to live. Others
     may use the store between the GET and the SET; a failed loader leaves store and counters alone.
     */
    method GetOrSet<E>(key: JsString, base: nat, extra: nat, loader: Result<JsString, E>, bypass: Result<JsString, E>,
        getAt: int, setAt: int, getWorks: bool, setWorks: bool, meanwhile: Store -> Store)
      returns (reply: CacheReply<E>)
      modifies this`stats, redis
      ensures var cached := if Reachable() && getWorks then Lookup(old(redis.store), key, getAt) else None;
        reply == (
          if cached.Some? then Data(cached.value, HIT)
          else
            var source := if Reachable() && getWorks then loader else bypass;
            match source
            case Ok(text) => Data(text, if Reachable() && getWorks then MISS else BYPASS)
            case Err(e) => LoaderFailed(e))
      ensures stats == CacheStats(
        old(stats).hits + (if reply.Data? && reply.status == HIT then 1 else 0),
        old(stats).misses + (if reply.Data? && reply.status == MISS then 1 else 0),
        old(stats).bypasses + (if reply.Data? && reply.status == BYPASS then 1 else 0), old(stats).invalidations)
      ensures reply.Data? && reply.status == MISS ==>
        redis.store == if setWorks
          then meanwhile(old(redis.store))[key := Entry(reply.text, Some(setAt + 1000 * (base + extra)))]
          else meanwhile(old(redis.store))
      ensures reply.Data? && reply.status != MISS ==> redis.store == old(redis.store)
      ensures reply.LoaderFailed? ==>
        redis.store == if Reachable() && getWorks then meanwhile(old(redis.store)) else old(redis.store)
    {
      if !configured || !ready || !getWorks {
        if bypass.Err? { return LoaderFailed(bypass.error); }
        stats := stats.(bypasses := stats.bypasses + 1);
        return Data(bypass.value, BYPASS);
      }
      var cached := Lookup(redis.store, key, getAt);
      if cached.Some? {
        stats := stats.(hits := stats.hits + 1);
        return Data(cached.value, HIT);
      }
      redis.store := meanwhile(redis.store);
      if loader.Err? { return LoaderFailed(loader.error); }
      stats := stats.(misses := stats.misses + 1);
      if setWorks { redis.store := redis.store[key := Entry(loader.value, Some(setAt + 1000 * (base + extra)))]; }
      reply := Data(loader.value, MISS);
    }

    method GetVersion(key: JsString, now: int, works: bool) returns (version: nat)
      ensures version == if Reachable() && works then VersionIn(redis.store, key, now) else 0
    {
      if !configured || !ready || !works { return 0; }
      var text := Lookup(redis.store, key, now);
      version := if text.Some? then AsNumber(text.value) else 0;
    }

    /** One more generation when Redis takes the command; all other keys stay as they are. */
    method BumpVersion(key: JsString, now: int, works: bool)
      modifies this`stats, redis
      ensures var bumped := Reachable() && works && HoldsNumber(old(redis.store), key, now);
        redis.store == (if bumped then Incr(old(redis.store), key, now).value else old(redis.store)) &&
        VersionIn(redis.store, key, now) == VersionIn(old(redis.store), key, now) + (if bumped then 1 else 0) &&
        (forall other :: other in old(redis.store) && other != key ==>
          other in redis.store && redis.store[other] == old(redis.store)[other]) &&
        stats == old(stats).(invalidations := old(stats).invalidations + if bumped then 1 else 0)
    {
      if !configured || !ready || !works { return; }
      var next := Incr(redis.store, key, now);
      if next.None? { return; }
      IncrRaises(redis.store, key, now);
      redis.store := next.value;
      stats := stats.(invalidations := stats.invalidations + 1);
    }

    method Invalidate(keys: seq<JsString>, works: bool)
      modifies this`stats, redis
      ensures var done := Reachable() && works;
        redis.store == (if done then old(redis.store) - set k | k in keys else old(redis.store)) &&
        stats == old(stats).(invalidations := old(stats).invalidations + if done then |keys| else 0)
    {
      if !configured || !ready || |keys| == 0 || !works {
        assert keys == [] ==> redis.store - (set k | k in keys) == redis.store;
        return;
      }
      redis.store := redis.store - set k | k in keys;
      stats := stats.(invalidations := stats.invalidations + |keys|);
    }

    /** SET with a time to live in milliseconds. */
    method SetFlag(key: JsString, ttlMs: int, now: int, works: bool)
      modifies redis
      ensures redis.store ==
        if Reachable() && works then old(redis.store)[key := Entry(FLAG, Some(now + ttlMs))] else old(redis.store)
    {
      if !configured || !ready || !works { return; }
      redis.store := redis.store[key := Entry(FLAG, Some(now + ttlMs))];
    }

    /** Whether the flag stands; nothing when Redis cannot tell. */
    method HasFlag(key: JsString, now: int, works: bool) returns (flag: Option<bool>)
      ensures flag == if Reachable() && works then Some(Lookup(redis.store, key, now).Some?) else None
    {
      if !configured || !ready || !works { return None; }
      flag := Some(key in redis.store && Live(redis.store[key], now));
    }
  }

  /** "1" */
  const FLAG: JsString := [49]
}
