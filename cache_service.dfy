/**
 * `CacheService` of `src/services/cacheService.ts` as a class whose fields the
 * methods update in place: the memory `Map` (its key order and its entries),
 * the `localStorage` contents and the hit/miss/request counters. Every public
 * method keeps `Valid()` and leaves the object in exactly the state the
 * matching function of CacheSpec computes from the old state.
 */
module CacheService {
  import opened Wrappers
  import opened Text
  import opened CacheSpec

  class CacheService {
    var order: seq<string>
    var memory: map<string, Item>
    var storage: map<string, Stored>
    var stats: Stats

    /** The abstract value of the object. */
    function Snapshot(): Cache
      reads this
    {
      Cache(order, memory, storage, stats)
    }

    ghost predicate Valid()
      reads this
    {
      Wellformed(Snapshot())
    }

    /** A fresh service over a durable store that may already hold entries
        from earlier sessions (the periodic sweep is the method Sweep). */
    constructor (persisted: map<string, Stored>)
      ensures Valid()
      ensures Snapshot() == Cache([], map[], persisted, Stats(0, 0, 0))
    {
      order := [];
      memory := map[];
      storage := persisted;
      stats := Stats(0, 0, 0);
    }

    method Get(key: string, now: int) returns (r: Option<Data>)
      requires Valid()
      modifies this
      ensures Valid()
      ensures (Snapshot(), r) == CacheSpec.Get(old(Snapshot()), key, now)
    {
      ghost var c0 := Snapshot();
      stats := stats.(requests := stats.requests + 1);
      if key in memory && !IsExpired(memory[key], now) {
        stats := stats.(hits := stats.hits + 1);
        return Some(memory[key].data);
      }
      var found := GetFromLocalStorage(key, now);
      if found.Some? && Truthy(found.value) {
        stats := stats.(hits := stats.hits + 1);
        ghost var hit := Snapshot();
        SetInMemory(key, found.value, DEFAULT_TTL, now);
        GetPromotionBranch(c0, hit, key, found.value, now);
        return found;
      }
      stats := stats.(misses := stats.misses + 1);
      return None;
    }

    method Set(key: string, data: Data, ttl: Option<int>, now: int, accepted: bool)
      requires Valid()
      modifies this
      ensures Valid()
      ensures Snapshot() == CacheSpec.Set(old(Snapshot()), key, data, ttl, now, accepted)
    {
      var memoryTtl := EffectiveTtl(ttl, DEFAULT_TTL);
      var localStorageTtl := EffectiveTtl(ttl, LOCALSTORAGE_TTL);
      SetInMemory(key, data, memoryTtl, now);
      SetInLocalStorage(key, data, localStorageTtl, now, accepted);
    }

    /** `Map.prototype.delete`. */
    method MapDelete(key: string)
      modifies this`order, this`memory
      ensures Snapshot() == RemoveFromMemory(old(Snapshot()), {key})
    {
      order := Without(order, {key});
      memory := memory - {key};
    }

    /** `Map.prototype.set`: a new key goes last, an existing one stays put. */
    method MapSet(key: string, item: Item)
      modifies this`order, this`memory
      ensures order == if key in old(memory) then old(order) else old(order) + [key]
      ensures memory == old(memory)[key := item]
    {
      if key !in memory {
        order := order + [key];
      }
      memory := memory[key := item];
    }

    method SetInMemory(key: string, data: Data, ttl: int, now: int)
      modifies this`order, this`memory
      ensures Snapshot() == CacheSpec.SetInMemory(old(Snapshot()), key, data, ttl, now)
    {
      if |memory| >= MAX_MEMORY_ITEMS {
        var firstKey := if |order| > 0 then Some(order[0]) else None;
        if firstKey.Some? && firstKey.value != "" {
          MapDelete(firstKey.value);
        }
      }
      MapSet(key, Item(data, now, now + ttl));
    }

    method SetInLocalStorage(key: string, data: Data, ttl: int, now: int, accepted: bool)
      modifies this`storage
      ensures storage == CacheSpec.SetInLocalStorage(old(storage), key, data, ttl, now, accepted)
    {
      if accepted {
        storage := storage[StorageKey(key) := Envelope(Item(data, now, now + ttl))];
      } else {
        ClearExpiredLocalStorage(now);
      }
    }

    method GetFromLocalStorage(key: string, now: int) returns (r: Option<Data>)
      modifies this`storage
      ensures (storage, r) == CacheSpec.GetFromLocalStorage(old(storage), key, now)
    {
      var raw := StorageKey(key);
      if raw !in storage {
        return None;
      }
      match storage[raw] {
        case Blank => return None;
        case Corrupt => return None;
        case Envelope(item) =>
          if IsExpired(item, now) {
            storage := storage - {raw};
            return None;
          }
          return Some(item.data);
      }
    }

    /** Deletes each listed key from the memory map. */
    method DeleteMemoryKeys(keys: seq<string>)
      modifies this`order, this`memory
      ensures Snapshot() == RemoveFromMemory(old(Snapshot()), KeySet(keys))
    {
      ghost var c0 := Snapshot();
      ghost var done: set<string> := {};
      RemoveNothing(c0);
      var j := 0;
      while j < |keys|
        invariant 0 <= j <= |keys|
        invariant done == KeySet(keys[..j])
        invariant Snapshot() == RemoveFromMemory(c0, done)
      {
        MapDelete(keys[j]);
        RemoveFromMemoryTwice(c0, done, {keys[j]});
        KeySetSnoc(keys, j);
        done := done + {keys[j]};
        j := j + 1;
      }
      assert keys[..|keys|] == keys;
    }

    lemma RemoveNothing(c: Cache)
      ensures RemoveFromMemory(c, {}) == c
    {
      WithoutNothing(c.order);
      assert c.memory - {} == c.memory;
    }

    lemma KeySetSnoc(keys: seq<string>, j: int)
      requires 0 <= j < |keys|
      ensures KeySet(keys[..j + 1]) == KeySet(keys[..j]) + {keys[j]}
    {
      assert keys[..j + 1] == keys[..j] + [keys[j]];
    }

    /** `localStorage.removeItem` for each of the given keys. */
    method RemoveStorageKeys(keys: set<string>)
      modifies this`storage
      ensures storage == old(storage) - keys
    {
      var pending := keys;
      while pending != {}
        invariant pending <= keys
        invariant storage == old(storage) - (keys - pending)
        decreases pending
      {
        var k :| k in pending;
        storage := storage - {k};
        pending := pending - {k};
      }
    }

    method CleanupMemoryCache(now: int)
      requires MemoryWellformed(order, memory)
      modifies this`order, this`memory
      ensures Snapshot() == CleanupMemory(old(Snapshot()), now)
    {
      var expired: seq<string> := [];
      var i := 0;
      while i < |order|
        invariant 0 <= i <= |order|
        invariant forall k :: k in expired <==> k in order[..i] && k in memory && IsExpired(memory[k], now)
      {
        if IsExpired(memory[order[i]], now) {
          expired := expired + [order[i]];
        }
        assert order[..i + 1] == order[..i] + [order[i]];
        i := i + 1;
      }
      assert order[..|order|] == order;
      assert KeySet(expired) == ExpiredKeys(Snapshot(), now);
      DeleteMemoryKeys(expired);
    }

    method ClearExpiredLocalStorage(now: int)
      modifies this`storage
      ensures storage == SweepStorage(old(storage), now)
    {
      var pokemonKeys := CacheKeys(storage);
      var pending := pokemonKeys;
      while pending != {}
        invariant pending <= pokemonKeys
        invariant storage == old(storage) - set k | k in pokemonKeys - pending && Stale(old(storage)[k], now)
        decreases pending
      {
        var k :| k in pending;
        ghost var done := set x | x in pokemonKeys - pending && Stale(old(storage)[x], now);
        match storage[k] {
          case Blank =>
          case Corrupt =>
            storage := storage - {k};
          case Envelope(item) =>
            if IsExpired(item, now) {
              storage := storage - {k};
            }
        }
        pending := pending - {k};
        assert (set x | x in pokemonKeys - pending && Stale(old(storage)[x], now))
            == done + (if Stale(old(storage)[k], now) then {k} else {});
      }
      assert (set k | k in pokemonKeys && Stale(old(storage)[k], now)) == StaleKeys(old(storage), now);
    }

    /** The five-minute interval callback. */
    method Sweep(now: int)
      requires Valid()
      modifies this
      ensures Valid()
      ensures Snapshot() == CacheSpec.Sweep(old(Snapshot()), now)
    {
      CleanupMemoryCache(now);
      ClearExpiredLocalStorage(now);
    }

    method Invalidate(keyOrPattern: string)
      requires Valid()
      modifies this
      ensures Valid()
      ensures Snapshot() == CacheSpec.Invalidate(old(Snapshot()), keyOrPattern)
    {
      ghost var c0 := Snapshot();
      if Contains(keyOrPattern, "*") {
        var pattern := ReplaceFirst(keyOrPattern, "*", "");
        assert pattern == PatternOf(keyOrPattern);
        var keysToDelete: seq<string> := [];
        var i := 0;
        while i < |order|
          invariant 0 <= i <= |order|
          invariant forall k :: k in keysToDelete <==> k in order[..i] && Contains(k, pattern)
        {
          if Contains(order[i], pattern) {
            keysToDelete := keysToDelete + [order[i]];
          }
          assert order[..i + 1] == order[..i] + [order[i]];
          i := i + 1;
        }
        assert order[..|order|] == order;
        assert KeySet(keysToDelete) == MatchingKeys(Snapshot(), pattern);
        DeleteMemoryKeys(keysToDelete);
        assert Snapshot() == RemoveFromMemory(c0, MatchingKeys(c0, pattern));
      } else {
        MapDelete(keyOrPattern);
      }
      ghost var cleared := Snapshot();
      assert cleared.stats == c0.stats && cleared.storage == c0.storage;

      if Contains(keyOrPattern, "*") {
        var pattern := ReplaceFirst(keyOrPattern, "*", "");
        var keysToDelete := set k | k in storage && IsCacheKey(k) && Contains(k, pattern);
        RemoveStorageKeys(keysToDelete);
      } else {
        storage := storage - {StorageKey(keyOrPattern)};
      }
    }

    method Clear()
      requires Valid()
      modifies this
      ensures Valid()
      ensures Snapshot() == CacheSpec.Clear(old(Snapshot()))
    {
      order, memory := [], map[];
      var pokemonKeys := CacheKeys(storage);
      RemoveStorageKeys(pokemonKeys);
      stats := Stats(0, 0, 0);
    }

    /** The counts of `getStats`. */
    function GetStats(): (s: StatsReport)
      reads this
      requires Valid()
      ensures s.hits == stats.hits && s.misses == stats.misses && s.requests == stats.requests
      ensures s.localStorageItems == |CacheKeys(storage)|
      ensures s.requests == s.hits + s.misses
      ensures s.memoryItems == |order|
    {
      Report(Snapshot())
    }

    method Warmup(items: seq<(string, Data)>, now: int, accepted: seq<bool>)
      requires Valid()
      requires |accepted| == |items|
      modifies this
      ensures Valid()
      ensures Snapshot() == CacheSpec.Warmup(old(Snapshot()), items, now, accepted)
    {
      var i := 0;
      while i < |items|
        invariant 0 <= i <= |items|
        invariant Valid()
        invariant CacheSpec.Warmup(Snapshot(), items[i..], now, accepted[i..])
               == CacheSpec.Warmup(old(Snapshot()), items, now, accepted)
      {
        Set(items[i].0, items[i].1, Some(LOCALSTORAGE_TTL), now, accepted[i]);
        assert items[i..][1..] == items[i + 1..];
        assert accepted[i..][1..] == accepted[i + 1..];
        i := i + 1;
      }
    }
  }
}
