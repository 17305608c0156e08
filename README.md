# PokeFront core in Dafny

This project models the logic of the PokeFront browser client that sits beneath its React
views:

- **The two-tier read-through cache** of `src/services/cacheService.ts`.
  - The memory tier is an insertion-ordered `Map`, capped at 100 items, with a five-minute
    default lifetime.
  - The durable tier is `localStorage`, under the `pokemon_cache_` prefix, with a
    thirty-minute default lifetime.
  - The cache keeps hit, miss and request counters.
- **The request layer** of `src/services/pokemonService.ts`.
  - `makeRequest` consults the cache, fetches on a miss, and caches a successful body for
    five minutes.
  - The service's URL builders.
  - The warm-up.
- **`buildApiUrl`** of `src/config/api.ts`, which substitutes `:key` placeholders.
- **The search helpers** of `src/utils/searchOptimization.ts`:
  - input cleaning;
  - id validation;
  - memoised suggestions;
  - the move-to-front search history;
  - the search metrics.
- **The paging logic** of `src/components/PokemonList.tsx`: the page numbers and ellipses
  of the pager, the `goToPage` guard, and the offset and page count of a load.
- **`throttle`** of `src/utils/debounce.ts`.

## How it is organised

Each cache operation is written twice.

- **As a function on a `Cache` value**, in module `CacheSpec`. The value holds:
  - the key order and entries of the memory map;
  - the durable store, keyed by raw prefixed key;
  - the counters.
- **As a method of the class `CacheService.CacheService`**, whose fields the methods
  update in place.

Each method is proved to leave the object in exactly the state its function computes.
The cache's promises are lemmas about the functions, in module `CacheProperties`. The
other stateful parts follow the same pattern:

- `makeRequest` against `Request`;
- the suggestion memo against `Suggest`;
- `addToHistory` against `Recorded`;
- `endSearch` against `Window`;
- `throttle` against `Fired` and `LastRun`.

Each of these methods says which specification function its result or new state equals,
and the properties are proved about that function.

Two support modules hold what several source files share. `Text` holds the JavaScript
string operations the source calls (`trim`, `toLowerCase`, `includes`, `replace`, `length`
and `String(n)`). `Sequences` holds order-keeping selection, which both `Map.delete` and
`filter` preserve.

### Outside inputs

The program's outside inputs are parameters:

- **The clock.** Each cache operation takes one `now` argument, which stands for every
  `Date.now()` reading the operation makes. `makeRequest` takes two: one for the lookup and
  one for the write after the fetch.
- **The outcome of `fetch` and of `response.json()`.** This is a `FetchOutcome`:
  - a response with its status, status text and body (JSON data, or text that does not
    parse);
  - or a network failure.
- **Whether `localStorage.setItem` accepts a write.** This is a `bool`. A refused write is
  caught; the cache then sweeps its expired slots.
- **The text in a durable slot.** This is one of:
  - an envelope that parses;
  - unparsable text, or the text `null` whose envelope test throws (`Corrupt`);
  - the empty string (`Blank`), which the source's truthiness tests skip.

  The search history's slot is modelled the same way.

## Model

| member | source | states |
|---|---|---|
| `CacheSpec.RemoveFromMemory` | src/services/cacheService.ts:151-153 | deleting keys from the memory map removes exactly those entries, leaves the durable tier and counters alone, and keeps key order and map in agreement |
| `CacheSpec.SetInMemory` | src/services/cacheService.ts:74-90 | the key ends up holding `Item(data, now, now + ttl)`; every other entry is an old entry with its old item; every old key except the oldest survives; only memory changes, and the order/map agreement is kept |
| `CacheSpec.Put` | src/services/cacheService.ts:89 | `Map.set` stores the item under the key and changes nothing else, keeping the order/map agreement |
| `CacheSpec.EvictOldest` | src/services/cacheService.ts:76-81 | eviction only drops keys, never alters a surviving item, keeps every key but the oldest, and keeps the order/map agreement |
| `CacheSpec.SweepStorage` | src/services/cacheService.ts:163-192 | a slot survives the sweep exactly when it is not a prefixed slot holding an expired envelope or unparsable text; survivors keep their text |
| `CacheSpec.SetInLocalStorage` | src/services/cacheService.ts:95-109 | an accepted write puts the envelope in the prefixed slot and changes no other slot; a refused write changes no slot and keeps every slot the sweep keeps |
| `CacheSpec.GetFromLocalStorage` | src/services/cacheService.ts:114-130 | data comes back exactly when the prefixed slot holds an unexpired envelope, and it is that envelope's data; the slot is deleted exactly when its envelope has expired |
| `CacheSpec.IsExpired` | src/services/cacheService.ts:135-137 | the strict test `now > expiresAt`; its behaviour over time is stated by `CacheSpec.ExpiryIsFinal` |
| `CacheSpec.ExpiryIsFinal` | src/services/cacheService.ts:135-137 | an expired item stays expired as the clock moves on, and an item is still live at its own `expiresAt` (the comparison is strict) |
| `CacheSpec.EffectiveTtl` | src/services/cacheService.ts:59-60 | `ttl || default`: a non-zero ttl is kept and an omitted or zero one becomes the default, so the result is zero only when the default is |
| `CacheSpec.PatternOf` | src/services/cacheService.ts:211 | without a `*` the argument is unchanged; with one, exactly one character is removed |
| `CacheSpec.Get` | src/services/cacheService.ts:29-53 | a lookup keeps the cache well formed: order and map agree and `requests == hits + misses` |
| `CacheSpec.Set` | src/services/cacheService.ts:58-69 | a write keeps the cache well formed |
| `CacheSpec.CleanupMemory` | src/services/cacheService.ts:142-158 | dropping expired memory items keeps the order/map agreement |
| `CacheSpec.Sweep` | src/services/cacheService.ts:197-202 | the periodic sweep keeps the cache well formed |
| `CacheSpec.Invalidate` | src/services/cacheService.ts:207-248 | invalidation keeps the cache well formed |
| `CacheSpec.Clear` | src/services/cacheService.ts:253-274 | the cleared cache is well formed whatever it was before |
| `CacheSpec.Report` | src/services/cacheService.ts:279-309 | `hits`, `misses` and `requests` are the cache's own counters, `localStorageItems` is the number of slots under the cache prefix, and `memoryItems` the number of memory keys; for a well-formed cache, `requests == hits + misses` and `memoryItems` is the length of the insertion order |
| `CacheSpec.Warmup` | src/services/cacheService.ts:314-322 | warm-up keeps the cache well formed and does not move the counters |
| `CacheService.CacheService.constructor` | src/services/cacheService.ts:8-24 | a new cache has an empty memory map, zero counters, and whatever the durable store already holds |
| `CacheService.CacheService.Get` | src/services/cacheService.ts:29-53 | `get` updates the fields to, and returns, what `CacheSpec.Get` computes |
| `CacheService.CacheService.Set` | src/services/cacheService.ts:58-69 | `set` updates the fields to `CacheSpec.Set` |
| `CacheService.CacheService.SetInMemory` | src/services/cacheService.ts:74-90 | `setInMemory`, evicting the oldest key before `Map.set`, updates the fields to `CacheSpec.SetInMemory` |
| `CacheService.CacheService.SetInLocalStorage` | src/services/cacheService.ts:95-109 | an accepted write stores the envelope under the prefixed key; a refused one sweeps the store |
| `CacheService.CacheService.GetFromLocalStorage` | src/services/cacheService.ts:114-130 | the read returns live data and deletes an expired envelope, as `CacheSpec.GetFromLocalStorage` |
| `CacheService.CacheService.CleanupMemoryCache` | src/services/cacheService.ts:142-158 | the collect-then-delete loops remove exactly the expired memory items |
| `CacheService.CacheService.ClearExpiredLocalStorage` | src/services/cacheService.ts:163-192 | the loop over prefixed keys removes exactly the stale slots |
| `CacheService.CacheService.Sweep` | src/services/cacheService.ts:197-202 | one firing of the cleanup timer updates the fields to `CacheSpec.Sweep` |
| `CacheService.CacheService.Invalidate` | src/services/cacheService.ts:207-248 | `invalidate` updates the fields to `CacheSpec.Invalidate` |
| `CacheService.CacheService.Clear` | src/services/cacheService.ts:253-274 | `clear` updates the fields to `CacheSpec.Clear` |
| `CacheService.CacheService.GetStats` | src/services/cacheService.ts:279-309 | `hits`, `misses` and `requests` are the service's counter fields, `localStorageItems` is the number of prefixed slots in its store, `memoryItems` counts the memory keys, and `requests == hits + misses` |
| `CacheService.CacheService.Warmup` | src/services/cacheService.ts:314-322 | the loop of `set` calls updates the fields to `CacheSpec.Warmup` |
| `CacheProperties.GetBookkeeping` | src/services/cacheService.ts:30-52 | every `get` adds one request, and one hit when it returns a value or one miss when it does not; a well-formed cache stays well formed |
| `CacheProperties.GetFindsLiveEntries` | src/services/cacheService.ts:33-47 | `get` returns a live memory item if there is one; otherwise it returns the truthy data of a live envelope, or nothing; expired items count as absent |
| `CacheProperties.MemoryHitChangesOnlyStats` | src/services/cacheService.ts:33-38 | a live memory hit leaves both tiers untouched |
| `CacheProperties.GetDeletesExpiredEnvelope` | src/services/cacheService.ts:120-122 | an expired envelope met by `get` is deleted from the store, and nothing else is |
| `CacheProperties.GetMissKeepsUnreadable` | src/services/cacheService.ts:114-130 | corrupt or empty slot text, or falsy live data, makes `get` a miss that deletes nothing |
| `CacheProperties.GetPromotes` | src/services/cacheService.ts:41-47 | a key live only in the store is returned, counted as a hit, and copied into memory to expire five minutes later |
| `CacheProperties.PromotedKeyHitsMemory` | src/services/cacheService.ts:33-47 | after a promotion, reads within five minutes are served from memory |
| `CacheProperties.SetWritesBothTiers` | src/services/cacheService.ts:58-66 | a non-zero ttl is used for both tiers; an omitted or zero ttl gives 300000 ms in memory and 1800000 ms in the store; an accepted write changes only the key's slot of the store, a refused one sweeps it; no other memory entry changes its item; the counters do not move |
| `CacheProperties.SetSurvivesStoreFailure` | src/services/cacheService.ts:95-108 | a refused store write keeps the memory copy, and the store only loses its stale entries |
| `CacheProperties.SetThenGet` | src/services/cacheService.ts:58-66 | `get` right after `set` returns the value, whether or not the store accepted the write |
| `CacheProperties.SetEvictsOldest` | src/services/cacheService.ts:76-89 | at capacity exactly the oldest-inserted key is evicted, and a new key goes last |
| `CacheProperties.ResetKeepsPosition` | src/services/cacheService.ts:76-89 | below capacity, re-setting a present key keeps its place in the order |
| `CacheProperties.MemoryCapacity` | src/services/cacheService.ts:76-81 | the memory tier never grows past 100 items unless its oldest key is the empty string |
| `CacheProperties.EmptyOldestKeyOverflows` | src/services/cacheService.ts:77-80 | an empty-string oldest key is never evicted, so a full tier grows to 101 |
| `CacheProperties.SetInMemoryKeepsBound` | src/services/cacheService.ts:74-90 | writing a non-empty key into a cache with at most 100 memory items and no empty key keeps it well formed, within 100 items, and free of the empty key |
| `CacheProperties.SetKeepsBound` | src/services/cacheService.ts:58-69 | `set` with a non-empty key keeps that capacity invariant |
| `CacheProperties.GetKeepsBound` | src/services/cacheService.ts:29-53 | `get` with a non-empty key keeps that capacity invariant, promotion included |
| `CacheProperties.WarmupKeepsBound` | src/services/cacheService.ts:314-322 | `warmup` over non-empty keys keeps that capacity invariant |
| `CacheProperties.WithoutAbsent` | src/services/cacheService.ts:151-153 | deleting keys none of which is present leaves the key order unchanged |
| `CacheProperties.WithoutHead` | src/services/cacheService.ts:79 | deleting the first key of the order leaves the rest in order |
| `CacheProperties.InvalidateKey` | src/services/cacheService.ts:223-242 | a plain key is removed from memory, its prefixed slot from the store, nothing else changes, and a later `get` misses |
| `CacheProperties.PatternDropsFirstStar` | src/services/cacheService.ts:211 | the pattern is the argument with its first `*` removed |
| `CacheProperties.InvalidatePatternMisses` | src/services/cacheService.ts:209-239 | after a wildcard invalidation, every key containing the pattern misses |
| `CacheProperties.InvalidatePatternKeepsOthers` | src/services/cacheService.ts:209-239 | a wildcard invalidation deletes exactly the matching memory keys and prefixed store keys; everything else and the counters stay unchanged |
| `CacheProperties.ClearEmpties` | src/services/cacheService.ts:253-271 | `clear` empties memory and zeroes the counters; it deletes exactly the prefixed store keys, so every later `get` misses |
| `CacheProperties.SweepRemovesExactlyStale` | src/services/cacheService.ts:142-192 | the sweep deletes exactly the expired memory items and the expired or unreadable prefixed slots |
| `CacheProperties.SweepIsUnobservable` | src/services/cacheService.ts:197-202 | at the same instant, `get` answers and counts the same with or without a sweep |
| `CacheProperties.WarmupAppend` | src/services/cacheService.ts:317-319 | warming a list plus one more item is warming the list, then `set` of the item |
| `CacheProperties.WarmupUsesLongTtl` | src/services/cacheService.ts:314-319 | the last warmed pair is in memory with a thirty-minute expiry, its durable slot holds the same envelope when that write was accepted, and the counters do not move |
| `CacheProperties.WarmupKeepsWarmed` | src/services/cacheService.ts:314-319 | warm-up writes of other keys never change a warmed pair: memory may evict it, and a refused store write sweeps only stale slots |
| `CacheProperties.WarmupEveryItemLongTtl` | src/services/cacheService.ts:314-319 | every warmed pair whose key is not warmed again later keeps its thirty-minute expiry, in memory while eviction leaves it there and in the durable store whenever its write was accepted |
| `CacheSpec.Without` | src/services/cacheService.ts:151-153 | the order without the deleted keys holds exactly the other keys, in their original order, still distinct |
| `CacheSpec.DistinctCons` | src/services/cacheService.ts:89 | appending a key not yet present to a key order keeps its keys distinct |
| `CacheSpec.WithoutNothing` | src/services/cacheService.ts:151-153 | deleting no key leaves the order as it was |
| `CacheSpec.WithoutWithout` | src/services/cacheService.ts:151-153 | two rounds of deletion are one round with the union of the keys |
| `CacheSpec.DistinctCard` | src/services/cacheService.ts:301 | a key order without repeats has as many keys as the map |
| `CacheSpec.MemorySize` | src/services/cacheService.ts:76 | the size of the memory map is the length of its key order |
| `CacheSpec.RemoveFromMemoryTwice` | src/services/cacheService.ts:151-153 | two deletions are one deletion of the union of the keys |
| `ApiConfig.BuildApiUrl` | src/config/api.ts:20-30 | without params the URL is base URL plus endpoint; with params it is the result of substituting them in order |
| `ApiConfig.Substitute` | src/config/api.ts:24-26 | when none of the params' placeholders occurs in the URL, the URL comes back unchanged |
| `ApiConfig.BuildUrl` | src/config/api.ts:20-30 | when none of the placeholders occurs in base URL plus endpoint, that is the URL |
| `ApiConfig.SubstituteAppend` | src/config/api.ts:24-26 | params are applied in order, each to the previous result |
| `ApiConfig.SubstituteOne` | src/config/api.ts:25 | an absent placeholder leaves the URL unchanged; otherwise only its first occurrence is replaced and the rest of the URL is kept |
| `ApiConfig.EndpointPlaceholder` | src/config/api.ts:4-25 | a placeholder that starts the endpoint's first `:` is found there, unless its key could match the scheme's or the port's `:` |
| `ApiConfig.SingleParamUrl` | src/config/api.ts:20-30 | for an endpoint with one placeholder, the value takes the placeholder's place and the rest is kept |
| `ApiConfig.NameEndpointUrl` | src/config/api.ts:8-30 | `POKEMON_BY_NAME` with name `v` gives the base URL, `/pokemon/`, then `v` |
| `ApiConfig.PikachuUrl` | src/config/api.ts:8-30 | `{ name: 'pikachu' }` gives `http://localhost:3000/pokemon/pikachu` |
| `ApiConfig.PortIsAPlaceholder` | src/config/api.ts:4-25 | the search covers the base URL: key `3000` rewrites the port, not the endpoint |
| `ApiConfig.PortFound` | src/config/api.ts:4-25 | the first `:3000` of any URL built on the base URL is the port, at index 16 |
| `PokemonService.Request` | src/services/pokemonService.ts:40-75 | one lookup, at most one fetch, and a cache write exactly when a fetch succeeded; well-formedness is kept |
| `PokemonService.SearchEach` | src/services/pokemonService.ts:118-126 | each popular name is searched in turn, with failures caught, one lookup per name |
| `PokemonService.Preload` | src/services/pokemonService.ts:108-131 | warm-up keeps the cache well formed |
| `PokemonService.PreloadLookups` | src/services/pokemonService.ts:108-131 | warm-up makes five lookups when the list request succeeds and one when it throws |
| `PokemonService.PreloadListUrl` | src/services/pokemonService.ts:113 | warm-up's list request asks for limit 1 at offset 20 |
| `PokemonService.PokemonService.constructor` | src/services/pokemonService.ts:164 | the service talks to the shared cache it is given |
| `PokemonService.PokemonService.MakeRequest` | src/services/pokemonService.ts:40-75 | `makeRequest` updates the cache to, and returns, what `Request` computes |
| `PokemonService.PokemonService.GetPokemonByName` | src/services/pokemonService.ts:78-81 | a request for the lower-cased name's URL |
| `PokemonService.PokemonService.GetPokemonById` | src/services/pokemonService.ts:84-87 | a request for the by-name URL of the id's decimal rendering |
| `PokemonService.PokemonService.GetPokemonList` | src/services/pokemonService.ts:90-98 | a request for `/pokemon?limit=<limit>&offset=<offset>` |
| `PokemonService.PokemonService.SearchPokemon` | src/services/pokemonService.ts:101-105 | a request for the lower-cased query's by-name URL |
| `PokemonService.PokemonService.GetPokemonSpecies` | src/services/pokemonService.ts:146-149 | a request for the species URL of the lower-cased name |
| `PokemonService.PokemonService.GetPokemonEvolution` | src/services/pokemonService.ts:152-155 | a request for the evolution URL of the lower-cased name |
| `PokemonService.PokemonService.GetPokemonByType` | src/services/pokemonService.ts:158-161 | a request for the by-type URL with `?limit=` appended |
| `PokemonService.PokemonService.WarmupCache` | src/services/pokemonService.ts:108-131 | the list request, then (if it succeeded) the four searches, leave the cache as `Preload` computes |
| `PokemonService.PokemonService.GetCacheStats` | src/services/pokemonService.ts:134-136 | the shared cache's counters, its number of prefixed slots and of memory keys, with `requests == hits + misses` |
| `PokemonService.PokemonService.ClearCache` | src/services/pokemonService.ts:139-141 | the shared cache is cleared |
| `PokemonService.CachedValueServed` | src/services/pokemonService.ts:43-47 | a truthy cached value is returned with no fetch and no write |
| `PokemonService.MissFetchesOnce` | src/services/pokemonService.ts:49-74 | a miss or falsy hit makes exactly one fetch; failures write nothing and throw `Error <status>: <statusText>`, the network error, or the parse error; success returns the body and caches it under the URL for 300000 ms |
| `PokemonService.SecondRequestHits` | src/services/pokemonService.ts:43-67 | a fetched truthy body makes the same request a fetch-free hit for the next five minutes |
| `PokemonService.ByNameUrl` | src/services/pokemonService.ts:79 | the by-name URL is the base URL, `/pokemon/`, then the lower-cased name |
| `PokemonService.ByIdUrl` | src/services/pokemonService.ts:85 | the by-id URL is the base URL, `/pokemon/`, then the id in decimal |
| `PokemonService.SearchUrl` | src/services/pokemonService.ts:103 | the search URL is the base URL, `/pokemon/`, then the lower-cased query |
| `PokemonService.SpeciesUrl` | src/services/pokemonService.ts:147 | the species URL puts the lower-cased name between `/pokemon/` and `/species` |
| `PokemonService.EvolutionUrl` | src/services/pokemonService.ts:153 | the evolution URL puts the lower-cased name between `/pokemon/` and `/evolution` |
| `PokemonService.ByTypeUrl` | src/services/pokemonService.ts:159 | the by-type URL is `/search/type/` plus the lower-cased type, then `?limit=` plus the limit |
| `PokemonService.SharedNameKey` | src/services/pokemonService.ts:79-103 | a search and a by-name request share a cache key exactly when the names lower-case alike |
| `PokemonService.IdUrl` | src/services/pokemonService.ts:84-87 | the by-id URL is the by-name URL of the id's decimal string, since lower-casing leaves digits alone |
| `PokemonService.ListUrl` | src/services/pokemonService.ts:96 | the collection endpoint with `?limit=` and `&offset=` in decimal; `PokemonService.ListUrlInjective` states that it tells pages apart |
| `PokemonService.ListUrlInjective` | src/services/pokemonService.ts:96 | two list requests share a cache key only when their limits and offsets are equal |
| `SearchOptimization.KeepAllowed` | src/utils/searchOptimization.ts:68 | the filter keeps exactly the characters of `[a-z0-9-]`, and never lengthens |
| `SearchOptimization.HyphenateWhitespace` | src/utils/searchOptimization.ts:69 | the result holds no white space; it keeps every other character of the input and adds nothing but hyphens, with a hyphen present when the input had white space |
| `SearchOptimization.HyphenateNothing` | src/utils/searchOptimization.ts:69 | text without white space is left alone by the white-space rule |
| `SearchOptimization.CleanPokemonInput` | src/utils/searchOptimization.ts:64-70 | cleaned input has only `a-z`, `0-9` and `-`, and has a hyphen only if the input did |
| `SearchOptimization.HyphenFromInput` | src/utils/searchOptimization.ts:65-67 | a hyphen left after trimming and lower-casing was in the input |
| `SearchOptimization.CleanIdempotent` | src/utils/searchOptimization.ts:64-70 | cleaning is idempotent |
| `SearchOptimization.AllowedIsNotWhitespace` | src/utils/searchOptimization.ts:68-69 | kept characters are neither white space nor upper case |
| `SearchOptimization.KeepAllowedKeeps` | src/utils/searchOptimization.ts:68 | the filter leaves allowed text unchanged |
| `SearchOptimization.KeepAllowedAppend` | src/utils/searchOptimization.ts:68 | the filter works character by character |
| `SearchOptimization.InnerSpaceDropped` | src/utils/searchOptimization.ts:68-69 | an inner space is deleted, not hyphenated: two allowed words joined by a space clean to their lower-cased concatenation ("Mr Mime" to "mrmime") |
| `SearchOptimization.LeadingDigits` | src/utils/searchOptimization.ts:55 | `parseInt` reads the longest run of leading digits |
| `SearchOptimization.LeadingDigitsAll` | src/utils/searchOptimization.ts:55 | an all-digit string is read whole |
| `SearchOptimization.LeadingDigitsOf` | src/utils/searchOptimization.ts:55 | digits followed by a non-digit are read up to the non-digit |
| `SearchOptimization.ParseRendered` | src/utils/searchOptimization.ts:55 | `parseInt` reads back every rendered integer |
| `SearchOptimization.RenderedIdValid` | src/utils/searchOptimization.ts:54-57 | a rendered integer is a valid id exactly when it lies in 1..1010 |
| `SearchOptimization.TrailingTextIgnored` | src/utils/searchOptimization.ts:54-57 | "25abc" is a valid id |
| `SearchOptimization.ZeroRejected` | src/utils/searchOptimization.ts:54-57 | "0" is not a valid id |
| `SearchOptimization.AboveRangeRejected` | src/utils/searchOptimization.ts:54-57 | "1011" is not a valid id |
| `SearchOptimization.NoDigitsRejected` | src/utils/searchOptimization.ts:54-57 | "abc" is `NaN`, not a valid id |
| `SearchOptimization.ParseInt` | src/utils/searchOptimization.ts:55 | after leading white space: a first character that is not a sign or digit gives `NaN`; a leading digit gives a non-negative number; a leading minus gives `NaN` or a non-positive number |
| `SearchOptimization.IsValidPokemonId` | src/utils/searchOptimization.ts:54-57 | a valid id, after leading white space, begins with a digit or a plus sign |
| `SearchOptimization.ParsedNothing` | src/utils/searchOptimization.ts:55 | text opening with a character other than white space, sign or digit is `NaN` |
| `SearchOptimization.ParseUnsigned` | src/utils/searchOptimization.ts:55 | text opening with a digit parses to the value of its leading digits |
| `SearchOptimization.ParsedPrefix` | src/utils/searchOptimization.ts:55 | text opening with digits parses to their value |
| `SearchOptimization.Matching` | src/utils/searchOptimization.ts:34-35 | the filter keeps exactly the names whose lower-cased form contains the key, in list order |
| `SearchOptimization.Take` | src/utils/searchOptimization.ts:36 | `slice(0, n)` is the prefix of length `n`, or the whole list when it is shorter |
| `SearchOptimization.Suggest` | src/utils/searchOptimization.ts:34-36 | the first five (or fewer) names containing the key, in list order; only popular names containing the key |
| `SearchOptimization.SuggestionsFor` | src/utils/searchOptimization.ts:13-47 | at most five names; none for input shorter than 2 UTF-16 units; each a popular name containing the lower-cased input |
| `SearchOptimization.SuggestionsSound` | src/utils/searchOptimization.ts:13-42 | input shorter than 2 UTF-16 units gives nothing; otherwise exactly the first five (or fewer) popular names containing the lower-cased input, in list order, so all of them when at most five match |
| `SearchOptimization.SuggestionCache.constructor` | src/utils/searchOptimization.ts:6 | the memo starts empty |
| `SearchOptimization.SuggestionCache.GetPokemonSuggestions` | src/utils/searchOptimization.ts:13-47 | the result is the suggestion list of the input, from the memo or computed, and the memo then maps the lower-cased key to it |
| `SearchOptimization.SuggestionCache.Expire` | src/utils/searchOptimization.ts:40 | expiry drops the key from the memo, which still holds only correct lists |
| `SearchOptimization.Remove` | src/utils/searchOptimization.ts:94 | the filter drops every copy of the name and keeps the other entries in order |
| `SearchOptimization.Recorded` | src/utils/searchOptimization.ts:93-100 | the new history has 1 to 10 entries and starts with the name |
| `SearchOptimization.ReadHistory` | src/utils/searchOptimization.ts:79-86 | a saved array is read as it is; a slot that parses to something other than an array is handed back as such (`None`); a missing, empty or unparsable slot reads as `[]` |
| `SearchOptimization.RecordedShape` | src/utils/searchOptimization.ts:88-102 | the new history is the cleaned name followed by the old history without that name, in order, cut to 10 entries; it loses none when the old history had fewer than 10 |
| `Sequences.SubsequenceLength` | src/utils/searchOptimization.ts:94 | a filtered list is no longer than the list |
| `Sequences.SubsequencePrefix` | src/utils/searchOptimization.ts:100 | a prefix keeps the order of the list |
| `Sequences.SubsequenceTrans` | src/utils/searchOptimization.ts:94-100 | filtering then truncating keeps the original order |
| `SearchOptimization.SearchHistory.constructor` | src/utils/searchOptimization.ts:75-77 | the history reads whatever its slot already holds |
| `SearchOptimization.SearchHistory.GetHistory` | src/utils/searchOptimization.ts:79-86 | the history reads the slot as `ReadHistory` does: a saved array as it is, a non-array as `None` |
| `SearchOptimization.SearchHistory.AddToHistory` | src/utils/searchOptimization.ts:88-106 | an accepted write saves the recorded history; a refused write, or a slot that is not an array, changes nothing |
| `SearchOptimization.SearchHistory.ClearHistory` | src/utils/searchOptimization.ts:108-114 | the slot is removed |
| `SearchOptimization.Window` | src/utils/searchOptimization.ts:155-158 | below 100 entries the duration is appended; at 100 only the last 50 remain |
| `SearchOptimization.WindowBounded` | src/utils/searchOptimization.ts:155-158 | the window stays within 100 entries, ends with the newest duration, and is a suffix of all durations |
| `SearchOptimization.LastFive` | src/utils/searchOptimization.ts:171 | the last five durations, or all when fewer |
| `SearchOptimization.SearchMetrics.constructor` | src/utils/searchOptimization.ts:138-141 | counters start at zero with no durations |
| `SearchOptimization.SearchMetrics.StartSearch` | src/utils/searchOptimization.ts:143-146 | one more search is counted and the clock is returned |
| `SearchOptimization.SearchMetrics.EndSearch` | src/utils/searchOptimization.ts:148-161 | `cacheHits` rises only for a cached search, and the durations become `Window` of the old ones |
| `SearchOptimization.SearchMetrics.GetStats` | src/utils/searchOptimization.ts:163-173 | the report gives the two counters and the last five durations (all of them when there are fewer), newest last, as `slice(-5)` does |
| `SearchOptimization.SearchMetrics.Reset` | src/utils/searchOptimization.ts:175-180 | everything is zeroed |
| `PokemonList.Interval` | src/components/PokemonList.tsx:51-53 | the loop's range is the consecutive integers from its start to its end |
| `PokemonList.Pages` | src/components/PokemonList.tsx:61 | the range's numbers are pushed as page entries, in order |
| `PokemonList.Pagination` | src/components/PokemonList.tsx:46-72 | the pager starts with page 1 and, with more than one page, ends with the last page |
| `PokemonList.GetPaginationNumbers` | src/components/PokemonList.tsx:46-72 | the loop and pushes build exactly the pager `Pagination` describes |
| `PokemonList.PaginationStartsAtOne` | src/components/PokemonList.tsx:55-69 | with a single page and a current page within the first four, the pager is exactly `[1]` |
| `PokemonList.NumbersAppend` | src/components/PokemonList.tsx:61-64 | the pager's numbers read piecewise |
| `PokemonList.NumbersOfPages` | src/components/PokemonList.tsx:61 | the inner range contributes its numbers in order |
| `PokemonList.PaginationNumbers` | src/components/PokemonList.tsx:51-69 | the numbers shown are 1, the inner range, then the last page when there is more than one |
| `PokemonList.PaginationOrdered` | src/components/PokemonList.tsx:51-69 | for a page in range, the numbers strictly increase (so 1 and the last page appear once) and include every page within two of it |
| `PokemonList.PaginationEllipses` | src/components/PokemonList.tsx:55-64 | a leading `...` appears exactly when current−2 > 2 and a trailing one exactly when current+2 < total−1; each hides at least one page |
| `PokemonList.TotalPages` | src/components/PokemonList.tsx:26 | the page count is the least `t` with `count <= 20 * t` |
| `PokemonList.Offset` | src/components/PokemonList.tsx:20 | the offset is a multiple of 20, and non-negative exactly when the page is at least 1 |
| `PokemonList.PagesCoverCount` | src/components/PokemonList.tsx:19-26 | each page's offset is 20 past the previous page's, and the pages cover the count with fewer than 20 to spare |
| `PokemonList.PokemonList.constructor` | src/components/PokemonList.tsx:12-14 | the component starts on page 1 of 1 with a count of 0 |
| `PokemonList.PokemonList.LoadPokemonList` | src/components/PokemonList.tsx:16-33 | the list request uses offset (page−1)·20; on success page, count and page total are set; a failure is caught and leaves them |
| `PokemonList.PokemonList.GoToPage` | src/components/PokemonList.tsx:40-44 | a page is loaded only when it is in 1..totalPages and differs from the current one; otherwise nothing changes |
| `Debounce.FiredSpacing` | src/utils/debounce.ts:50-63 | the recorded time is the last run (or the start); every run is a call time; runs are at least `delay` apart, the first at least `delay` after the start |
| `Debounce.RunsApart` | src/utils/debounce.ts:56-62 | with a non-negative delay, any two runs are at least `delay` apart |
| `Debounce.FirstCall` | src/utils/debounce.ts:54-58 | since `lastCall` starts at 0, the first call runs exactly when the clock reads at least `delay` |
| `Debounce.CallStep` | src/utils/debounce.ts:57-61 | a call runs exactly when it comes at least `delay` after the last run; only a run updates the recorded time, and a dropped call changes nothing |
| `Debounce.NoDelayRunsAll` | src/utils/debounce.ts:58 | with no delay and a clock that never goes back, every call runs |
| `Debounce.LastRun` | src/utils/debounce.ts:54-62 | the recorded time is the start or one of the call times, and with a non-negative delay it never falls below the start |
| `Debounce.Fired` | src/utils/debounce.ts:56-62 | the runs are call times, and there are no more of them than calls |
| `Debounce.Throttle.constructor` | src/utils/debounce.ts:50-54 | `lastCall` starts at 0 |
| `Debounce.Throttle.Call` | src/utils/debounce.ts:56-62 | `ran` holds exactly when now − lastCall ≥ delay; `lastCall` becomes now only then, and the runs grow by this call only then |
| `Text.LowerAsciiKeeps` | src/utils/searchOptimization.ts:67 | lower-casing leaves text without upper-case letters unchanged |
| `Text.LowerAscii` | src/utils/searchOptimization.ts:67 | lower-casing keeps the length, leaves no upper-case ASCII letter, shifts each upper-case letter by 32 and keeps every other character |
| `Text.IndexOfIs` | src/config/api.ts:25 | the first occurrence is found at the first position where the placeholder occurs |
| `Text.NoOccurrenceIn` | src/config/api.ts:25 | no occurrence starts where the placeholder's first character is absent |
| `Text.OccursInTail` | src/config/api.ts:25 | an occurrence after the first character is an occurrence in the tail |
| `Text.ContainsIff` | src/services/cacheService.ts:215 | `includes` holds exactly when some position holds the pattern |
| `Text.ContainsAfterPrefix` | src/services/cacheService.ts:234 | a key containing the pattern still contains it after the storage prefix |
| `Text.NatToStringRoundTrip` | src/services/pokemonService.ts:85 | a rendered natural number reads back as itself |
| `Text.NatToString` | src/services/pokemonService.ts:85 | the numeral is a non-empty string of digits, with a leading zero only for 0 |
| `Text.IndexOf` | src/config/api.ts:25 | the search finds the first position where the placeholder occurs, or reports that it occurs nowhere |
| `Text.ReplaceFirst` | src/config/api.ts:25 | `replace` with a string pattern, also used at `src/services/cacheService.ts:211`; what it does is stated by `Text.ReplacesFirstOccurrence` |
| `Text.ReplacesFirstOccurrence` | src/config/api.ts:25 | `replace` with a string pattern leaves text without an occurrence unchanged, and otherwise replaces the first occurrence and keeps the text around it |
| `Text.TrimStart` | src/utils/searchOptimization.ts:66 | leading white space, and only that, is removed |
| `Text.TrimEnd` | src/utils/searchOptimization.ts:66 | trailing white space, and only that, is removed |
| `Text.Trim` | src/utils/searchOptimization.ts:66 | trimmed text is empty or begins and ends with a character that is not white space; it is empty only when the input is all white space |
| `Text.TrimIsSlice` | src/utils/searchOptimization.ts:66 | the trimmed text is the slice of the input that follows its leading white space, with only white space after it |
| `Text.TrimIdempotent` | src/utils/searchOptimization.ts:66 | trimming twice trims nothing more |
| `Text.TrimNoWhitespace` | src/utils/searchOptimization.ts:66 | text without white space is unchanged by `trim` |
| `Text.Utf16Length` | src/utils/searchOptimization.ts:14 | `length` counts one or two UTF-16 units per character, so it lies between the character count and twice that, and equals the character count for text inside the Basic Multilingual Plane |
| `Text.IntToString` | src/services/pokemonService.ts:85 | `String(n)` is a minus sign for negative `n`, followed by decimal digits |
| `Text.IntToStringInjective` | src/services/pokemonService.ts:96 | different integers render as different text |
| `Text.IntToStringChars` | src/services/pokemonService.ts:96 | a rendered integer holds no character other than digits and the minus sign |

## Left out

- Timers are left out. This covers:
  - the five-minute `setInterval` sweep (`src/services/cacheService.ts:197-202`), modelled as
    one explicit `Sweep(now)` per firing;
  - the suggestion memo's `setTimeout` expiry (`src/utils/searchOptimization.ts:40`), modelled
    as an explicit `Expire(key)`;
  - `debounce` and `useDebounce` (`src/utils/debounce.ts:7-42`), which are only
    `setTimeout`/`clearTimeout` scheduling.
- Floating-point outputs are left out:
  - the cache's `efficiency` and `memorySize` strings;
  - `averageTime`, `averageSearchTime` and `cacheHitRate` of the search metrics.

  Only the integer counts are modelled.
- `fetch`, `response.json`, `JSON.stringify` and `JSON.parse` are inputs. Their results are
  data (`FetchOutcome`, `Stored`, `HistoryRecord`). Cached data is a small JSON value type
  that keeps only what the cache tests: its truthiness.
- PokemonService.PokemonService.WarmupCache: the four searches are made one after the other.
  The source starts them together and awaits them with `Promise.all`, so their interleaving
  with other requests is not modelled.
- Lower-casing (`toLowerCase`) is ASCII only. Unicode case mappings such as `İ` or the
  Kelvin sign are not modelled.
- `parseInt` is modelled in base ten only. Its `0x` hexadecimal prefix is not modelled.
- `String.prototype.replace` is modelled with a plain replacement string. The special `$`
  patterns of a replacement value are not modelled.
- ApiConfig.BuildApiUrl takes its params as a sequence in the order `Object.entries`
  yields. JavaScript's ordering of integer-like keys first is not modelled. Values are
  taken already rendered with `String`.
- JavaScript numbers are modelled as integers:
  - page numbers, ids, limits and counts;
  - `Date.now()` readings and throttle delays.

  Fractional and `NaN` inputs are not modelled.
- `setInMemory` and `setInLocalStorage` each call `Date.now()` twice. One `now` is used for
  both readings.
- CacheSpec.Get: one `now` serves every clock reading of a `get`. The source reads the clock
  separately for the memory expiry test (`src/services/cacheService.ts:33`, through `:136`),
  for the durable expiry test (`:120`) and for the promoted item's timestamps (`:85-86`).
  A lookup that straddles an expiry instant is not modelled.
- CacheSpec.Sweep: one `now` serves both passes. The source reads the clock for each memory
  item (`:146`) and each stored slot (`:174`).
- CacheSpec.Warmup: one `now` serves every `set` of the loop (`:318`).
- Slot text that parses as a JSON value other than `null` but is not an envelope (it has
  no `expiresAt`) is not modelled. In the source such a slot never expires, since
  `Date.now() > undefined` is false. The sweep never deletes it, and `get` answers with its
  `data` field (a hit when that is truthy, a miss when it is absent or falsy) for as long
  as the slot exists. The text `null` is modelled as `Corrupt`: `isExpired(null)` throws
  (`src/services/cacheService.ts:136`), so `get` answers null from its catch (`:125-128`)
  and the sweep removes the slot from its catch (`:181-184`), exactly as for unparsable
  text.
- Default arguments are always passed explicitly: `getPokemonList(limit = 20, offset = 0)`
  and `getPokemonByType(type, limit = 20)` (`src/services/pokemonService.ts:90`, `:158`)
  take every parameter in the model.
- PokemonService.Request: a request is one atomic step. The source awaits `fetch` and
  `response.json()` (`src/services/pokemonService.ts:51`, `:64`), so other cache operations
  may run between the lookup (`:43`) and the write (`:67`). Those interleavings are not
  modelled.
- SearchOptimization.SearchHistory.AddToHistory assumes a saved history holds strings.
  A saved JSON array of other values is not modelled. A saved value that is not an array
  makes `filter` throw, which is caught; that case is modelled (`NotAList`).
- The React rendering, `useState`/`useEffect` and the list of results shown by
  `PokemonList` are left out. Only its paging state and logic are modelled.
- The logging calls, `preloadRelatedPokemon` (which does nothing but log),
  `src/utils/cacheUtils.ts` and `src/main.tsx` (window and console wiring) are not part of
  this model. `src/App.tsx` is not part of this model either.
- PokemonList.PaginationNumbers requires a current page of at least 1. With a current page
  below 1 and a page total of 1 or less, the source still appends a trailing ellipsis and
  the total; `Pagination` itself models that case as written.
