/**
 * The two-tier read-through cache of `src/services/cacheService.ts`, as values.
 *
 * The memory tier is a JavaScript `Map`: its keys in insertion order (`order`)
 * and the entries themselves (`memory`). The durable tier is the browser's
 * `localStorage`, keyed by the raw (prefixed) key and shared with data that
 * does not belong to the cache. Time is an explicit `now` in milliseconds.
 * Each operation of the cache is a function from the old `Cache` value to the
 * new one; the class in module CacheService is proved to follow them.
 */
module CacheSpec {
  import opened Wrappers
  import opened Text
  import opened Sequences

  /** Default time to live of the memory tier: five minutes. */
  const DEFAULT_TTL: int := 5 * 60 * 1000
  /** Default time to live of the durable tier: thirty minutes. */
  const LOCALSTORAGE_TTL: int := 30 * 60 * 1000
  /** Size at which the memory tier evicts before inserting. */
  const MAX_MEMORY_ITEMS: nat := 100
  /** Namespace of the cache's entries in the durable store. */
  const STORAGE_PREFIX: string := "pokemon_cache_"

  /** A cached JSON value; only its JavaScript truthiness matters to the cache. */
  datatype Data = Null | Bool(b: bool) | Num(n: int) | Str(s: string) | Document(json: string)

  predicate Truthy(d: Data) {
    match d
    case Null => false
    case Bool(b) => b
    case Num(n) => n != 0
    case Str(s) => s != ""
    case Document(_) => true
  }

  /** `CacheItem<T>`: the data and the instants it was written and expires. */
  datatype Item = Item(data: Data, timestamp: int, expiresAt: int)

  /** What a durable-store slot holds: an envelope that parses, text that does
      not parse (or the text `null`, whose expiry test throws), or the empty
      string. */
  datatype Stored = Envelope(item: Item) | Corrupt | Blank

  datatype Stats = Stats(hits: nat, misses: nat, requests: nat)

  datatype Cache = Cache(
    order: seq<string>,
    memory: map<string, Item>,
    storage: map<string, Stored>,
    stats: Stats)

  /** The counts `getStats` reports (its derived percentage and size estimate are not modelled). */
  datatype StatsReport = StatsReport(
    memoryItems: nat, localStorageItems: nat, hits: nat, misses: nat, requests: nat)

  /** `isExpired`: strictly after `expiresAt`. */
  predicate IsExpired(item: Item, now: int) {
    now > item.expiresAt
  }

  /** An expired item stays expired as the clock moves on, and an item is
      live up to and including its expiry instant. */
  lemma ExpiryIsFinal(item: Item, now: int, later: int)
    requires now <= later
    ensures IsExpired(item, now) ==> IsExpired(item, later)
    ensures !IsExpired(item, item.expiresAt)
  {
  }

  function StorageKey(key: string): string {
    STORAGE_PREFIX + key
  }

  predicate IsCacheKey(rawKey: string) {
    StartsWith(rawKey, STORAGE_PREFIX)
  }

  /** `ttl || default`: an omitted or zero ttl falls back to the default. */
  function EffectiveTtl(ttl: Option<int>, default: int): (r: int)
    ensures ttl.Some? && ttl.value != 0 ==> r == ttl.value
    ensures ttl.None? || ttl.value == 0 ==> r == default
    ensures r != 0 || default == 0
  {
    if ttl.Some? && ttl.value != 0 then ttl.value else default
  }

  // ---------------------------------------------------------------------------
  // The memory tier as an insertion-ordered map

  function Min(a: int, b: int): int { if a <= b then a else b }

  predicate Distinct(s: seq<string>) {
    forall i, j :: 0 <= i < j < |s| ==> s[i] != s[j]
  }

  lemma DistinctCons(a: string, t: seq<string>)
    requires a !in t && Distinct(t)
    ensures Distinct([a] + t)
  {
    forall i, j | 0 <= i < j < |[a] + t| ensures ([a] + t)[i] != ([a] + t)[j] {
      if i > 0 { assert ([a] + t)[i] == t[i - 1]; }
      assert ([a] + t)[j] == t[j - 1];
    }
  }

  /** `s` with the elements of `doomed` taken out, the rest in order. */
  function Without(s: seq<string>, doomed: set<string>): (r: seq<string>)
    ensures forall x :: x in r <==> x in s && x !in doomed
    ensures IsSubsequence(r, s)
    ensures Distinct(s) ==> Distinct(r)
    ensures |r| <= |s|
  {
    if s == [] then []
    else
      var rest := Without(s[1..], doomed);
      if s[0] in doomed then
        assert IsSubsequence(rest, s) by {
          if rest != [] { assert IsSubsequence(rest, s[1..]); }
        }
        rest
      else
        assert Distinct(s) ==> Distinct([s[0]] + rest) by {
          if Distinct(s) { DistinctCons(s[0], rest); }
        }
        assert ([s[0]] + rest)[1..] == rest;
        [s[0]] + rest
  }

  lemma {:induction false} WithoutNothing(s: seq<string>)
    ensures Without(s, {}) == s
  {
    if s != [] {
      WithoutNothing(s[1..]);
    }
  }

  /** The keys listed in `s`. */
  function KeySet(s: seq<string>): set<string> {
    set x | x in s
  }

  /** Deleting two sets of keys one after the other deletes their union. */
  lemma {:induction false} WithoutWithout(s: seq<string>, a: set<string>, b: set<string>)
    ensures Without(Without(s, a), b) == Without(s, a + b)
  {
    if s != [] {
      WithoutWithout(s[1..], a, b);
    }
  }

  lemma {:induction false} DistinctCard(s: seq<string>)
    requires Distinct(s)
    ensures |set x | x in s| == |s|
  {
    if s != [] {
      DistinctCard(s[1..]);
      assert (set x | x in s) == {s[0]} + (set x | x in s[1..]);
    }
  }

  /** The map and its key order describe the same keys, each once. */
  ghost predicate MemoryWellformed(order: seq<string>, memory: map<string, Item>) {
    Distinct(order) && forall k :: k in order <==> k in memory
  }

  /** The invariant every cache state keeps. */
  ghost predicate Wellformed(c: Cache) {
    MemoryWellformed(c.order, c.memory) && c.stats.requests == c.stats.hits + c.stats.misses
  }

  lemma MemorySize(order: seq<string>, memory: map<string, Item>)
    requires MemoryWellformed(order, memory)
    ensures |memory| == |order|
  {
    DistinctCard(order);
    assert memory.Keys == set x | x in order;
  }

  /** `Map.prototype.delete` for a set of keys. */
  function RemoveFromMemory(c: Cache, doomed: set<string>): (r: Cache)
    ensures r.memory == c.memory - doomed && r.storage == c.storage && r.stats == c.stats
    ensures MemoryWellformed(c.order, c.memory) ==> MemoryWellformed(r.order, r.memory)
  {
    c.(order := Without(c.order, doomed), memory := c.memory - doomed)
  }

  lemma RemoveFromMemoryTwice(c: Cache, a: set<string>, b: set<string>)
    ensures RemoveFromMemory(RemoveFromMemory(c, a), b) == RemoveFromMemory(c, a + b)
  {
    WithoutWithout(c.order, a, b);
    assert c.memory - a - b == c.memory - (a + b);
  }

  /** `Map.prototype.set`: a new key goes last, an existing key keeps its
      place and takes the new item. */
  function Put(c: Cache, key: string, item: Item): (r: Cache)
    ensures r.memory == c.memory[key := item] && r.storage == c.storage && r.stats == c.stats
    ensures MemoryWellformed(c.order, c.memory) ==> MemoryWellformed(r.order, r.memory)
  {
    var order := if key in c.memory then c.order else c.order + [key];
    assert MemoryWellformed(c.order, c.memory) && key !in c.memory ==> Distinct(order);
    c.(order := order, memory := c.memory[key := item])
  }

  /** The eviction step of `setInMemory`: when the map is full, drop the oldest
      key, unless that key is the empty string (which the source's truthiness
      test skips). */
  function EvictOldest(c: Cache): (r: Cache)
    ensures r.memory.Keys <= c.memory.Keys && r.storage == c.storage && r.stats == c.stats
    ensures forall k :: k in r.memory ==> r.memory[k] == c.memory[k]
    ensures forall k :: k in c.memory && k !in c.order[..Min(1, |c.order|)] ==> k in r.memory
    ensures MemoryWellformed(c.order, c.memory) ==> MemoryWellformed(r.order, r.memory)
  {
    if |c.memory| >= MAX_MEMORY_ITEMS && |c.order| > 0 && c.order[0] != "" then
      RemoveFromMemory(c, {c.order[0]})
    else c
  }

  /** `setInMemory`: evict the oldest key when the map is full, then
      `Map.prototype.set`. */
  function SetInMemory(c: Cache, key: string, data: Data, ttl: int, now: int): (r: Cache)
    ensures key in r.memory && r.memory[key] == Item(data, now, now + ttl)
    ensures forall k :: k in r.memory && k != key ==> k in c.memory && r.memory[k] == c.memory[k]
    ensures forall k :: k in c.memory && k !in c.order[..Min(1, |c.order|)] ==> k in r.memory
    ensures r.storage == c.storage && r.stats == c.stats
    ensures MemoryWellformed(c.order, c.memory) ==> MemoryWellformed(r.order, r.memory)
  {
    Put(EvictOldest(c), key, Item(data, now, now + ttl))
  }

  // ---------------------------------------------------------------------------
  // The durable tier

  /** Whether the sweep deletes a slot: an expired envelope or unparsable text.
      An empty string is skipped. */
  predicate Stale(s: Stored, now: int) {
    match s
    case Envelope(item) => IsExpired(item, now)
    case Corrupt => true
    case Blank => false
  }

  function CacheKeys(storage: map<string, Stored>): set<string> {
    set k | k in storage && IsCacheKey(k)
  }

  function StaleKeys(storage: map<string, Stored>, now: int): set<string> {
    set k | k in storage && IsCacheKey(k) && Stale(storage[k], now)
  }

  /** `clearExpiredLocalStorage`. */
  function SweepStorage(storage: map<string, Stored>, now: int): (r: map<string, Stored>)
    ensures forall k :: k in r <==> k in storage && !(IsCacheKey(k) && Stale(storage[k], now))
    ensures forall k :: k in r ==> r[k] == storage[k]
  {
    storage - StaleKeys(storage, now)
  }

  /** `setInLocalStorage`; `accepted` is false when the store refuses the write,
      which the source swallows and answers with a sweep of the store. */
  function SetInLocalStorage(storage: map<string, Stored>, key: string, data: Data, ttl: int,
                             now: int, accepted: bool): (r: map<string, Stored>)
    ensures accepted ==> StorageKey(key) in r && r[StorageKey(key)] == Envelope(Item(data, now, now + ttl))
    ensures forall k :: k in r && (k != StorageKey(key) || !accepted) ==> k in storage && r[k] == storage[k]
    ensures accepted ==> forall k :: k in storage ==> k in r
    ensures !accepted ==> forall k :: k in storage && !(IsCacheKey(k) && Stale(storage[k], now)) ==> k in r
  {
    if accepted then storage[StorageKey(key) := Envelope(Item(data, now, now + ttl))]
    else SweepStorage(storage, now)
  }

  /** `getFromLocalStorage`: the live data under `key`, deleting the slot when
      its envelope has expired. */
  function GetFromLocalStorage(storage: map<string, Stored>, key: string, now: int)
    : (r: (map<string, Stored>, Option<Data>))
    ensures var raw := StorageKey(key);
      r.1.Some? <==> raw in storage && storage[raw].Envelope? && !IsExpired(storage[raw].item, now)
    ensures r.1.Some? ==> r.1.value == storage[StorageKey(key)].item.data
    ensures var raw := StorageKey(key);
      if raw in storage && storage[raw].Envelope? && IsExpired(storage[raw].item, now)
      then r.0 == storage - {raw} else r.0 == storage
  {
    var raw := StorageKey(key);
    if raw !in storage then (storage, None)
    else match storage[raw]
      case Blank => (storage, None)
      case Corrupt => (storage, None)
      case Envelope(item) =>
        if IsExpired(item, now) then (storage - {raw}, None) else (storage, Some(item.data))
  }

  // ---------------------------------------------------------------------------
  // The public operations

  /** `get`: memory first, then the durable tier, promoting a truthy durable hit. */
  function Get(c: Cache, key: string, now: int): (res: (Cache, Option<Data>))
    ensures Wellformed(c) ==> Wellformed(res.0)
  {
    var counted := c.(stats := c.stats.(requests := c.stats.requests + 1));
    if key in c.memory && !IsExpired(c.memory[key], now) then
      (counted.(stats := counted.stats.(hits := counted.stats.hits + 1)), Some(c.memory[key].data))
    else
      var (storage, found) := GetFromLocalStorage(c.storage, key, now);
      var looked := counted.(storage := storage);
      if found.Some? && Truthy(found.value) then
        var hit := looked.(stats := looked.stats.(hits := looked.stats.hits + 1));
        (SetInMemory(hit, key, found.value, DEFAULT_TTL, now), Some(found.value))
      else
        (looked.(stats := looked.stats.(misses := looked.stats.misses + 1)), None)
  }

  /** The promoting branch of `get`, spelled out: a memory miss followed by a
      truthy durable hit counts one request and one hit and copies the data
      into memory with the default lifetime. */
  lemma GetPromotionBranch(c: Cache, hit: Cache, key: string, v: Data, now: int)
    requires !(key in c.memory && !IsExpired(c.memory[key], now))
    requires GetFromLocalStorage(c.storage, key, now) == (hit.storage, Some(v)) && Truthy(v)
    requires hit == c.(storage := hit.storage,
                       stats := c.stats.(requests := c.stats.requests + 1, hits := c.stats.hits + 1))
    ensures Get(c, key, now) == (SetInMemory(hit, key, v, DEFAULT_TTL, now), Some(v))
  {
  }

  /** `set`: both tiers, the memory tier first. */
  function Set(c: Cache, key: string, data: Data, ttl: Option<int>, now: int, accepted: bool)
    : (r: Cache)
    ensures Wellformed(c) ==> Wellformed(r)
  {
    var c1 := SetInMemory(c, key, data, EffectiveTtl(ttl, DEFAULT_TTL), now);
    c1.(storage := SetInLocalStorage(c1.storage, key, data, EffectiveTtl(ttl, LOCALSTORAGE_TTL),
                                     now, accepted))
  }

  function ExpiredKeys(c: Cache, now: int): set<string> {
    set k | k in c.memory && IsExpired(c.memory[k], now)
  }

  /** `cleanupMemoryCache`. */
  function CleanupMemory(c: Cache, now: int): (r: Cache)
    ensures MemoryWellformed(c.order, c.memory) ==> MemoryWellformed(r.order, r.memory)
  {
    RemoveFromMemory(c, ExpiredKeys(c, now))
  }

  /** The periodic sweep: `cleanupMemoryCache` then `clearExpiredLocalStorage`. */
  function Sweep(c: Cache, now: int): (r: Cache)
    ensures Wellformed(c) ==> Wellformed(r)
  {
    CleanupMemory(c, now).(storage := SweepStorage(c.storage, now))
  }

  /** `keyOrPattern.replace('*', '')`. */
  function PatternOf(keyOrPattern: string): (r: string)
    ensures !Contains(keyOrPattern, "*") ==> r == keyOrPattern
    ensures |r| == if Contains(keyOrPattern, "*") then |keyOrPattern| - 1 else |keyOrPattern|
  {
    ReplaceFirst(keyOrPattern, "*", "")
  }

  function MatchingKeys(c: Cache, pattern: string): set<string> {
    set k | k in c.memory && Contains(k, pattern)
  }

  /** `invalidate`: by exact key, or every key containing the pattern. */
  function Invalidate(c: Cache, keyOrPattern: string): (r: Cache)
    ensures Wellformed(c) ==> Wellformed(r)
  {
    if Contains(keyOrPattern, "*") then
      var pattern := PatternOf(keyOrPattern);
      RemoveFromMemory(c, MatchingKeys(c, pattern)).(storage :=
        c.storage - set k | k in c.storage && IsCacheKey(k) && Contains(k, pattern))
    else
      RemoveFromMemory(c, {keyOrPattern}).(storage := c.storage - {StorageKey(keyOrPattern)})
  }

  /** `clear`: both tiers and the statistics. */
  function Clear(c: Cache): (r: Cache)
    ensures Wellformed(r)
  {
    Cache([], map[], c.storage - CacheKeys(c.storage), Stats(0, 0, 0))
  }

  /** The counts of `getStats`. */
  function Report(c: Cache): (s: StatsReport)
    ensures s.hits == c.stats.hits && s.misses == c.stats.misses && s.requests == c.stats.requests
    ensures s.localStorageItems == |CacheKeys(c.storage)| && s.memoryItems == |c.memory|
    ensures Wellformed(c) ==> s.requests == s.hits + s.misses && s.memoryItems == |c.order|
  {
    assert Wellformed(c) ==> |c.memory| == |c.order| by {
      if Wellformed(c) { MemorySize(c.order, c.memory); }
    }
    StatsReport(|c.memory|, |CacheKeys(c.storage)|, c.stats.hits, c.stats.misses, c.stats.requests)
  }

  /** `warmup`: `set` each pair with the durable tier's TTL, in order; the i-th
      write to the durable store succeeds when `accepted[i]` holds. */
  function Warmup(c: Cache, items: seq<(string, Data)>, now: int, accepted: seq<bool>): (r: Cache)
    requires |accepted| == |items|
    ensures Wellformed(c) ==> Wellformed(r)
    ensures r.stats == c.stats
    decreases |items|
  {
    if items == [] then c
    else Warmup(Set(c, items[0].0, items[0].1, Some(LOCALSTORAGE_TTL), now, accepted[0]),
                items[1..], now, accepted[1..])
  }
}
