/**
 * What the cache promises, stated over the functions of CacheSpec: the
 * request/hit/miss bookkeeping, expiry, promotion from the durable tier, the
 * write-through of `set`, FIFO eviction and the capacity bound, and what
 * `invalidate`, `clear`, the sweep and `warmup` do and leave alone.
 */
module CacheProperties {
  import opened Wrappers
  import opened Text
  import opened CacheSpec

  /** A memory entry for `key` that has not expired at `now`. */
  predicate LiveInMemory(c: Cache, key: string, now: int) {
    key in c.memory && !IsExpired(c.memory[key], now)
  }

  /** The data of an unexpired envelope stored for `key`, if there is one. */
  function LiveStored(c: Cache, key: string, now: int): Option<Data> {
    var raw := StorageKey(key);
    if raw in c.storage && c.storage[raw].Envelope? && !IsExpired(c.storage[raw].item, now)
    then Some(c.storage[raw].item.data)
    else None
  }

  // ---------------------------------------------------------------------------
  // get

  /** Every `get` is one more request and exactly one more hit (when it returns
      a value) or one more miss (when it does not); `requests == hits + misses`
      is kept. */
  lemma GetBookkeeping(c: Cache, key: string, now: int)
    ensures var (c', r) := Get(c, key, now);
      && (Wellformed(c) ==> Wellformed(c'))
      && c'.stats.requests == c.stats.requests + 1
      && (r.Some? ==> c'.stats.hits == c.stats.hits + 1 && c'.stats.misses == c.stats.misses)
      && (r.None? ==> c'.stats.misses == c.stats.misses + 1 && c'.stats.hits == c.stats.hits)
  {
  }

  /** `get` returns a value exactly when a live memory entry exists, or else a
      live envelope with truthy data is stored; expired entries count as absent
      in both tiers. */
  lemma GetFindsLiveEntries(c: Cache, key: string, now: int)
    ensures var r := Get(c, key, now).1;
      && (LiveInMemory(c, key, now) ==> r == Some(c.memory[key].data))
      && (!LiveInMemory(c, key, now) ==>
            r == if LiveStored(c, key, now).Some? && Truthy(LiveStored(c, key, now).value)
                 then LiveStored(c, key, now) else None)
  {
  }

  /** A live memory hit changes nothing but the counters. */
  lemma MemoryHitChangesOnlyStats(c: Cache, key: string, now: int)
    requires LiveInMemory(c, key, now)
    ensures var c' := Get(c, key, now).0;
      c'.order == c.order && c'.memory == c.memory && c'.storage == c.storage
  {
  }

  /** An expired envelope met by `get` is deleted from the durable store, and
      nothing else is. */
  lemma GetDeletesExpiredEnvelope(c: Cache, key: string, now: int)
    requires !LiveInMemory(c, key, now)
    requires StorageKey(key) in c.storage && c.storage[StorageKey(key)].Envelope?
    requires IsExpired(c.storage[StorageKey(key)].item, now)
    ensures var (c', r) := Get(c, key, now);
      && r == None
      && c'.storage == c.storage - {StorageKey(key)}
      && c'.memory == c.memory && c'.order == c.order
  {
  }

  /** Unreadable (or empty) stored text, or a live envelope whose data is falsy,
      makes `get` a miss that leaves both tiers as they were. */
  lemma GetMissKeepsUnreadable(c: Cache, key: string, now: int)
    requires !LiveInMemory(c, key, now)
    requires StorageKey(key) in c.storage
    requires var s := c.storage[StorageKey(key)];
      s.Corrupt? || s.Blank? || (!IsExpired(s.item, now) && !Truthy(s.item.data))
    ensures var (c', r) := Get(c, key, now);
      && r == None
      && c'.storage == c.storage && c'.memory == c.memory && c'.order == c.order
  {
  }

  /** Promotion: a key live only in the durable tier is returned, counted as a
      hit, and copied into memory with the memory tier's default TTL. */
  lemma GetPromotes(c: Cache, key: string, now: int)
    requires !LiveInMemory(c, key, now)
    requires LiveStored(c, key, now).Some? && Truthy(LiveStored(c, key, now).value)
    ensures var (c', r) := Get(c, key, now);
      && r == LiveStored(c, key, now)
      && c'.stats.hits == c.stats.hits + 1
      && key in c'.memory && c'.memory[key] == Item(r.value, now, now + DEFAULT_TTL)
      && c'.storage == c.storage
  {
  }

  /** After a promotion, reads within the memory TTL are served from memory. */
  lemma PromotedKeyHitsMemory(c: Cache, key: string, now: int, later: int)
    requires !LiveInMemory(c, key, now)
    requires LiveStored(c, key, now).Some? && Truthy(LiveStored(c, key, now).value)
    requires now <= later <= now + DEFAULT_TTL
    ensures var c' := Get(c, key, now).0;
      LiveInMemory(c', key, later) && Get(c', key, later).1 == LiveStored(c, key, now)
  {
    GetPromotes(c, key, now);
  }

  // ---------------------------------------------------------------------------
  // set

  /** `set` writes the value into both tiers: a non-zero ttl is used for both,
      an omitted or zero ttl gives five minutes in memory and thirty in the
      durable store. No other slot of the durable store changes when it accepts
      the write, and no other memory entry changes value. The counters do not
      move. */
  lemma SetWritesBothTiers(c: Cache, key: string, v: Data, ttl: Option<int>, now: int, accepted: bool)
    ensures var c' := Set(c, key, v, ttl, now, accepted);
      && c'.stats == c.stats
      && key in c'.memory
      && (accepted ==> StorageKey(key) in c'.storage)
      && (accepted ==> c'.storage == c.storage[StorageKey(key) := c'.storage[StorageKey(key)]])
      && (!accepted ==> c'.storage == SweepStorage(c.storage, now))
      && (forall k :: k in c'.memory && k != key ==> k in c.memory && c'.memory[k] == c.memory[k])
      && (ttl.Some? && ttl.value != 0 ==>
            && c'.memory[key] == Item(v, now, now + ttl.value)
            && (accepted ==> c'.storage[StorageKey(key)] == Envelope(Item(v, now, now + ttl.value))))
      && (ttl.None? || ttl.value == 0 ==>
            && c'.memory[key] == Item(v, now, now + 300000)
            && (accepted ==> c'.storage[StorageKey(key)] == Envelope(Item(v, now, now + 1800000))))
  {
  }

  /** A write the durable store refuses is swallowed: the memory copy is in
      place, and the store has only lost its stale cache entries. */
  lemma SetSurvivesStoreFailure(c: Cache, key: string, v: Data, ttl: Option<int>, now: int)
    ensures var c' := Set(c, key, v, ttl, now, false);
      && key in c'.memory && c'.memory[key].data == v
      && c'.storage == SweepStorage(c.storage, now)
  {
  }

  /** `set` followed by `get` at the same instant returns the value, whether or
      not the durable store accepted the write (a negative ttl expires at once). */
  lemma SetThenGet(c: Cache, key: string, v: Data, ttl: Option<int>, now: int, accepted: bool)
    requires EffectiveTtl(ttl, DEFAULT_TTL) >= 0
    ensures Get(Set(c, key, v, ttl, now, accepted), key, now).1 == Some(v)
  {
  }

  /** At capacity, exactly the oldest-inserted key is evicted before the insert,
      and the new key (if new) goes last. */
  lemma SetEvictsOldest(c: Cache, key: string, data: Data, ttl: int, now: int)
    requires Wellformed(c)
    requires |c.memory| >= MAX_MEMORY_ITEMS && c.order[0] != ""
    ensures var c' := SetInMemory(c, key, data, ttl, now);
      && c'.memory.Keys == c.memory.Keys - {c.order[0]} + {key}
      && c'.order == c.order[1..] + (if key in c.order[1..] then [] else [key])
  {
    MemorySize(c.order, c.memory);
    var c1 := RemoveFromMemory(c, {c.order[0]});
    assert c1.order == c.order[1..] by { WithoutHead(c.order); }
    assert key in c1.memory <==> key in c.order[1..] by {
      assert c.order == [c.order[0]] + c.order[1..];
    }
    assert EvictOldest(c) == c1;
  }

  /** Below capacity, re-setting an existing key keeps its place in the order. */
  lemma ResetKeepsPosition(c: Cache, key: string, data: Data, ttl: int, now: int)
    requires |c.memory| < MAX_MEMORY_ITEMS && key in c.memory
    ensures SetInMemory(c, key, data, ttl, now).order == c.order
  {
  }

  /** The memory tier never grows past 100 items, unless its oldest key is the
      empty string (which the eviction test treats as "no key"). */
  lemma MemoryCapacity(c: Cache, key: string, data: Data, ttl: int, now: int)
    requires Wellformed(c) && |c.memory| <= MAX_MEMORY_ITEMS
    requires |c.memory| < MAX_MEMORY_ITEMS || c.order[0] != ""
    ensures |SetInMemory(c, key, data, ttl, now).memory| <= MAX_MEMORY_ITEMS
  {
    MemorySize(c.order, c.memory);
    var c' := SetInMemory(c, key, data, ttl, now);
    if |c.memory| >= MAX_MEMORY_ITEMS {
      SetEvictsOldest(c, key, data, ttl, now);
      assert |c.memory.Keys - {c.order[0]}| == |c.memory| - 1;
      assert |c'.memory.Keys| <= |c.memory.Keys - {c.order[0]}| + 1;
    }
  }

  /** With the empty string as the oldest key, a full memory tier takes a new
      key without evicting and grows past the bound. */
  lemma EmptyOldestKeyOverflows(c: Cache, key: string, data: Data, ttl: int, now: int)
    requires Wellformed(c) && |c.memory| >= MAX_MEMORY_ITEMS && c.order[0] == ""
    requires key !in c.memory
    ensures |SetInMemory(c, key, data, ttl, now).memory| == |c.memory| + 1
  {
    MemorySize(c.order, c.memory);
  }

  /** The capacity invariant: a wellformed cache with at most 100 items in
      memory, none of them under the empty key. */
  ghost predicate Bounded(c: Cache) {
    Wellformed(c) && |c.memory| <= MAX_MEMORY_ITEMS && "" !in c.memory
  }

  /** Writing a non-empty key into memory keeps the capacity invariant. */
  lemma SetInMemoryKeepsBound(c: Cache, key: string, data: Data, ttl: int, now: int)
    requires Bounded(c) && key != ""
    ensures Bounded(SetInMemory(c, key, data, ttl, now))
  {
    MemorySize(c.order, c.memory);
    if |c.memory| >= MAX_MEMORY_ITEMS {
      assert c.order[0] in c.memory;
    }
    MemoryCapacity(c, key, data, ttl, now);
  }

  /** `set` with a non-empty key keeps the capacity invariant. */
  lemma SetKeepsBound(c: Cache, key: string, v: Data, ttl: Option<int>, now: int, accepted: bool)
    requires Bounded(c) && key != ""
    ensures Bounded(Set(c, key, v, ttl, now, accepted))
  {
    SetInMemoryKeepsBound(c, key, v, EffectiveTtl(ttl, DEFAULT_TTL), now);
  }

  /** `get` with a non-empty key keeps the capacity invariant, promotion
      included. */
  lemma GetKeepsBound(c: Cache, key: string, now: int)
    requires Bounded(c) && key != ""
    ensures Bounded(Get(c, key, now).0)
  {
    var (c', r) := Get(c, key, now);
    if !LiveInMemory(c, key, now) && r.Some? {
      var hit := c.(storage := GetFromLocalStorage(c.storage, key, now).0,
                    stats := c.stats.(requests := c.stats.requests + 1, hits := c.stats.hits + 1));
      SetInMemoryKeepsBound(hit, key, r.value, DEFAULT_TTL, now);
    }
  }

  /** `warmup` over non-empty keys keeps the capacity invariant. */
  lemma {:induction false} WarmupKeepsBound(c: Cache, items: seq<(string, Data)>, now: int,
                                            accepted: seq<bool>)
    requires |accepted| == |items|
    requires Bounded(c) && forall i :: 0 <= i < |items| ==> items[i].0 != ""
    ensures Bounded(Warmup(c, items, now, accepted))
    decreases |items|
  {
    if items != [] {
      SetKeepsBound(c, items[0].0, items[0].1, Some(LOCALSTORAGE_TTL), now, accepted[0]);
      WarmupKeepsBound(Set(c, items[0].0, items[0].1, Some(LOCALSTORAGE_TTL), now, accepted[0]),
                       items[1..], now, accepted[1..]);
    }
  }

  lemma WithoutHead(s: seq<string>)
    requires Distinct(s) && s != []
    ensures Without(s, {s[0]}) == s[1..]
  {
    assert s[0] !in s[1..];
    WithoutAbsent(s[1..], {s[0]});
  }

  lemma {:induction false} WithoutAbsent(s: seq<string>, doomed: set<string>)
    requires forall x :: x in s ==> x !in doomed
    ensures Without(s, doomed) == s
  {
    if s != [] {
      WithoutAbsent(s[1..], doomed);
    }
  }

  // ---------------------------------------------------------------------------
  // invalidate, clear, sweep

  /** Invalidating a plain key deletes it from memory and its prefixed slot from
      the durable store, and nothing else; a following `get` misses. */
  lemma InvalidateKey(c: Cache, key: string, now: int)
    requires !Contains(key, "*")
    ensures var c' := Invalidate(c, key);
      && c'.memory == c.memory - {key}
      && c'.storage == c.storage - {StorageKey(key)}
      && c'.stats == c.stats
      && Get(c', key, now).1 == None
  {
  }

  /** The pattern is the argument with its first `*` removed. */
  lemma PatternDropsFirstStar(keyOrPattern: string)
    requires Contains(keyOrPattern, "*")
    ensures var i := IndexOf(keyOrPattern, "*");
      && PatternOf(keyOrPattern) == keyOrPattern[..i] + keyOrPattern[i + 1..]
      && '*' !in keyOrPattern[..i]
  {
    var i := IndexOf(keyOrPattern, "*");
    forall j | 0 <= j < i ensures keyOrPattern[j] != '*' {
      assert !OccursAt(keyOrPattern, "*", j);
      assert keyOrPattern[j..j + 1] == [keyOrPattern[j]];
    }
  }

  /** After a wildcard invalidation, every key containing the pattern misses. */
  lemma InvalidatePatternMisses(c: Cache, keyOrPattern: string, key: string, now: int)
    requires Contains(keyOrPattern, "*") && Contains(key, PatternOf(keyOrPattern))
    ensures Get(Invalidate(c, keyOrPattern), key, now).1 == None
  {
    ContainsAfterPrefix(STORAGE_PREFIX, key, PatternOf(keyOrPattern));
    assert StartsWith(StorageKey(key), STORAGE_PREFIX);
  }

  /** A wildcard invalidation keeps every memory entry whose key lacks the
      pattern and every durable slot outside the cache's namespace or lacking
      the pattern, each unchanged, and does not touch the counters. */
  lemma InvalidatePatternKeepsOthers(c: Cache, keyOrPattern: string)
    requires Contains(keyOrPattern, "*")
    ensures var c' := Invalidate(c, keyOrPattern); var p := PatternOf(keyOrPattern);
      && c'.stats == c.stats
      && (forall k :: k in c'.memory <==> k in c.memory && !Contains(k, p))
      && (forall k :: k in c'.memory ==> c'.memory[k] == c.memory[k])
      && (forall k :: k in c'.storage <==> k in c.storage && !(IsCacheKey(k) && Contains(k, p)))
      && (forall k :: k in c'.storage ==> c'.storage[k] == c.storage[k])
  {
  }

  /** `clear` empties memory, deletes every prefixed slot and only those, and
      zeroes the counters; afterwards every `get` misses. */
  lemma ClearEmpties(c: Cache, key: string, now: int)
    ensures var c' := Clear(c);
      && c'.memory == map[] && c'.order == []
      && c'.stats == Stats(0, 0, 0)
      && (forall k :: k in c'.storage <==> k in c.storage && !IsCacheKey(k))
      && (forall k :: k in c'.storage ==> c'.storage[k] == c.storage[k])
      && Get(c', key, now).1 == None
      && Report(c') == StatsReport(0, 0, 0, 0, 0)
  {
    assert IsCacheKey(StorageKey(key));
    assert CacheKeys(Clear(c).storage) == {};
  }

  /** The sweep deletes exactly the expired memory items and the expired or
      unreadable prefixed slots. */
  lemma SweepRemovesExactlyStale(c: Cache, now: int)
    ensures var c' := Sweep(c, now);
      && c'.stats == c.stats
      && (forall k :: k in c'.memory <==> k in c.memory && !IsExpired(c.memory[k], now))
      && (forall k :: k in c'.memory ==> c'.memory[k] == c.memory[k])
      && (forall k :: k in c'.storage <==> k in c.storage && !(IsCacheKey(k) && Stale(c.storage[k], now)))
      && (forall k :: k in c'.storage ==> c'.storage[k] == c.storage[k])
  {
  }

  /** The sweep cannot be observed through `get`: at the same instant, `get`
      answers and counts the same with or without it. */
  lemma SweepIsUnobservable(c: Cache, key: string, now: int)
    ensures Get(Sweep(c, now), key, now).1 == Get(c, key, now).1
    ensures Get(Sweep(c, now), key, now).0.stats == Get(c, key, now).0.stats
  {
    var s := Sweep(c, now);
    SweepRemovesExactlyStale(c, now);
    GetFindsLiveEntries(c, key, now);
    GetFindsLiveEntries(s, key, now);
    assert LiveInMemory(s, key, now) <==> LiveInMemory(c, key, now);
    assert IsCacheKey(StorageKey(key));
    assert LiveStored(s, key, now) == LiveStored(c, key, now);
    GetBookkeeping(c, key, now);
    GetBookkeeping(s, key, now);
  }

  // ---------------------------------------------------------------------------
  // warmup

  lemma {:induction false} WarmupAppend(c: Cache, items: seq<(string, Data)>, item: (string, Data),
                                        now: int, accepted: seq<bool>, ok: bool)
    requires |accepted| == |items|
    ensures Warmup(c, items + [item], now, accepted + [ok])
         == Set(Warmup(c, items, now, accepted), item.0, item.1, Some(LOCALSTORAGE_TTL), now, ok)
    decreases |items|
  {
    if items == [] {
      assert [item][1..] == [];
    } else {
      var c1 := Set(c, items[0].0, items[0].1, Some(LOCALSTORAGE_TTL), now, accepted[0]);
      assert (items + [item])[1..] == items[1..] + [item];
      assert (accepted + [ok])[1..] == accepted[1..] + [ok];
      WarmupAppend(c1, items[1..], item, now, accepted[1..], ok);
    }
  }

  /** `warmup` passes the durable tier's 30-minute TTL to `set`, so the last
      warmed key sits in memory for 30 minutes, not the memory tier's usual 5. */
  lemma WarmupUsesLongTtl(c: Cache, items: seq<(string, Data)>, key: string, v: Data,
                          now: int, accepted: seq<bool>, ok: bool)
    requires |accepted| == |items|
    ensures var c' := Warmup(c, items + [(key, v)], now, accepted + [ok]);
      && key in c'.memory && c'.memory[key] == Item(v, now, now + LOCALSTORAGE_TTL)
      && (ok ==> StorageKey(key) in c'.storage && c'.storage[StorageKey(key)] == Envelope(Item(v, now, now + LOCALSTORAGE_TTL)))
      && c'.stats == c.stats
  {
    WarmupAppend(c, items, (key, v), now, accepted, ok);
  }

  /** What `warmup` leaves for one pair: a memory item that lives 30 minutes,
      and, when that write to the store was accepted, the same durable envelope. */
  ghost predicate Warmed(c: Cache, key: string, v: Data, now: int, stored: bool) {
    && (key in c.memory ==> c.memory[key] == Item(v, now, now + LOCALSTORAGE_TTL))
    && (stored ==> StorageKey(key) in c.storage
                   && c.storage[StorageKey(key)] == Envelope(Item(v, now, now + LOCALSTORAGE_TTL)))
  }

  /** A warm-up write of another key, at the same instant, leaves a warmed pair
      alone: memory may evict it but never changes it, and a refused store write
      sweeps only slots that are already stale. */
  lemma SetKeepsWarmed(c: Cache, key: string, v: Data, now: int, stored: bool,
                       other: string, w: Data, ok: bool)
    requires other != key && Warmed(c, key, v, now, stored)
    ensures Warmed(Set(c, other, w, Some(LOCALSTORAGE_TTL), now, ok), key, v, now, stored)
  {
    assert StorageKey(other)[|STORAGE_PREFIX|..] == other;
    assert StorageKey(key)[|STORAGE_PREFIX|..] == key;
    if stored {
      assert IsCacheKey(StorageKey(key));
    }
  }

  lemma {:induction false} WarmupKeepsWarmed(c: Cache, items: seq<(string, Data)>, now: int,
                                             accepted: seq<bool>, key: string, v: Data, stored: bool)
    requires |accepted| == |items|
    requires forall j :: 0 <= j < |items| ==> items[j].0 != key
    requires Warmed(c, key, v, now, stored)
    ensures Warmed(Warmup(c, items, now, accepted), key, v, now, stored)
    decreases |items|
  {
    if items != [] {
      SetKeepsWarmed(c, key, v, now, stored, items[0].0, items[0].1, accepted[0]);
      var c1 := Set(c, items[0].0, items[0].1, Some(LOCALSTORAGE_TTL), now, accepted[0]);
      WarmupKeepsWarmed(c1, items[1..], now, accepted[1..], key, v, stored);
    }
  }

  /** Every warmed pair whose key is not warmed again later keeps the 30-minute
      expiry: in memory for as long as eviction leaves it there, and in the
      durable store whenever its write was accepted. */
  lemma {:induction false} WarmupEveryItemLongTtl(c: Cache, items: seq<(string, Data)>, now: int,
                                                  accepted: seq<bool>, i: nat)
    requires |accepted| == |items| && i < |items|
    requires forall j :: i < j < |items| ==> items[j].0 != items[i].0
    ensures Warmed(Warmup(c, items, now, accepted), items[i].0, items[i].1, now, accepted[i])
    decreases |items|
  {
    var c1 := Set(c, items[0].0, items[0].1, Some(LOCALSTORAGE_TTL), now, accepted[0]);
    if i == 0 {
      assert Warmed(c1, items[0].0, items[0].1, now, accepted[0]);
      WarmupKeepsWarmed(c1, items[1..], now, accepted[1..], items[0].0, items[0].1, accepted[0]);
    } else {
      WarmupEveryItemLongTtl(c1, items[1..], now, accepted[1..], i - 1);
    }
  }
}
