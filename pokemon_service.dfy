/**
 * `PokemonService` of `src/services/pokemonService.ts`: a read-through client
 * that looks a URL up in the shared cache, fetches it on a miss, and caches
 * the parsed body for five minutes. `fetch` and `response.json` are not part
 * of the model: their answer is an input (`World`).
 */
module PokemonService {
  import opened Wrappers
  import opened Text
  import opened CacheSpec
  import opened ApiConfig
  import CacheService
  import CacheProperties

  /** How long `makeRequest` caches a response: five minutes. */
  const REQUEST_TTL: int := 5 * 60 * 1000

  /** The names `warmupCache` looks up after the list. */
  const WARMUP_NAMES: seq<string> := ["pikachu", "charizard", "blastoise", "venusaur"]

  /** The body of a response: JSON that parses, or text that makes `json()` throw. */
  datatype Body = Json(data: Data) | Malformed(reason: string)

  /** What `fetch` settles with: a response, or a rejection (network failure). */
  datatype FetchOutcome = Responded(status: int, statusText: string, body: Body) | Unreachable(reason: string)

  /** What `makeRequest` throws. */
  datatype RequestError = HttpError(message: string) | NetworkError(reason: string) | ParseError(reason: string)

  /** What the outside world contributes to one request: the clock when the
      cache is read, the answer of `fetch`, the clock once the body is parsed,
      and whether the durable store accepts the write. */
  datatype World = World(now: int, outcome: FetchOutcome, doneAt: int, storeAccepts: bool)

  /** One request: the cache afterwards, what the caller gets, and how many
      network calls and cache writes it made. */
  datatype Exchange = Exchange(cache: Cache, result: Result<Data, RequestError>, fetches: nat, writes: nat)

  /** `response.ok`. */
  predicate IsOk(status: int) {
    200 <= status <= 299
  }

  /** The message of the error thrown for a response that is not ok. */
  function StatusMessage(status: int, statusText: string): string {
    "Error " + IntToString(status) + ": " + statusText
  }

  /** `makeRequest(url)`. */
  function Request(c: Cache, url: string, w: World): (x: Exchange)
    ensures Wellformed(c) ==> Wellformed(x.cache)
    ensures x.cache.stats.requests == c.stats.requests + 1
    ensures x.fetches <= 1
    ensures x.writes == 1 <==> x.fetches == 1 && x.result.Success?
    ensures x.writes <= 1
  {
    var (looked, cached) := Get(c, url, w.now);
    if cached.Some? && Truthy(cached.value) then Exchange(looked, Success(cached.value), 0, 0)
    else
      match w.outcome
      case Unreachable(reason) => Exchange(looked, Failure(NetworkError(reason)), 1, 0)
      case Responded(status, statusText, body) =>
        if !IsOk(status) then Exchange(looked, Failure(HttpError(StatusMessage(status, statusText))), 1, 0)
        else
          match body
          case Malformed(reason) => Exchange(looked, Failure(ParseError(reason)), 1, 0)
          case Json(data) =>
            Exchange(Set(looked, url, data, Some(REQUEST_TTL), w.doneAt, w.storeAccepts), Success(data), 1, 1)
  }

  // ---------------------------------------------------------------------------
  // The URLs (the cache keys) of the service's requests

  /** `getPokemonByName`: the lower-cased name after `/pokemon/`. */
  function ByNameUrl(name: string): (r: string)
    ensures r == BASE_URL + "/pokemon/" + LowerAscii(name)
  {
    NameEndpointUrl(LowerAscii(name));
    BuildUrl(POKEMON_BY_NAME, [("name", LowerAscii(name))])
  }

  /** `getPokemonById`: the decimal id after `/pokemon/`. */
  function ByIdUrl(id: int): (r: string)
    ensures r == BASE_URL + "/pokemon/" + IntToString(id)
  {
    NameEndpointUrl(IntToString(id));
    BuildUrl(POKEMON_BY_NAME, [("name", IntToString(id))])
  }

  /** `getPokemonList`: the collection endpoint with the page as a query
      string. */
  function ListUrl(limit: int, offset: int): string {
    BASE_URL + POKEMON + "?limit=" + IntToString(limit) + "&offset=" + IntToString(offset)
  }

  /** `searchPokemon`: the by-name endpoint with the lower-cased query. */
  function SearchUrl(query: string): (r: string)
    ensures r == BASE_URL + "/pokemon/" + LowerAscii(query)
  {
    NameEndpointUrl(LowerAscii(query));
    BuildUrl(POKEMON_BY_NAME, [("name", LowerAscii(query))])
  }

  /** `getPokemonSpecies`. */
  function SpeciesUrl(name: string): (r: string)
    ensures r == BASE_URL + "/pokemon/" + LowerAscii(name) + "/species"
  {
    assert POKEMON_SPECIES == "/pokemon/" + ":" + "name" + "/species";
    SingleParamUrl("/pokemon/", "name", "/species", LowerAscii(name));
    BuildUrl(POKEMON_SPECIES, [("name", LowerAscii(name))])
  }

  /** `getPokemonEvolution`. */
  function EvolutionUrl(name: string): (r: string)
    ensures r == BASE_URL + "/pokemon/" + LowerAscii(name) + "/evolution"
  {
    assert POKEMON_EVOLUTION == "/pokemon/" + ":" + "name" + "/evolution";
    SingleParamUrl("/pokemon/", "name", "/evolution", LowerAscii(name));
    BuildUrl(POKEMON_EVOLUTION, [("name", LowerAscii(name))])
  }

  /** `getPokemonByType`: the lower-cased type after `/search/type/`, and
      the limit appended as a query string. */
  function ByTypeUrl(pokemonType: string, limit: int): (r: string)
    ensures r == BASE_URL + "/search/type/" + LowerAscii(pokemonType) + "?limit=" + IntToString(limit)
  {
    assert SEARCH_BY_TYPE == "/search/type/" + ":" + "type" + "";
    SingleParamUrl("/search/type/", "type", "", LowerAscii(pokemonType));
    BuildUrl(SEARCH_BY_TYPE, [("type", LowerAscii(pokemonType))]) + "?limit=" + IntToString(limit)
  }

  // ---------------------------------------------------------------------------
  // warmupCache, run one request after the other

  /** The popular names searched in turn; a failed search is caught and the
      next one still runs. */
  function SearchEach(c: Cache, names: seq<string>, worlds: seq<World>): (r: Cache)
    requires |worlds| == |names|
    ensures Wellformed(c) ==> Wellformed(r)
    ensures r.stats.requests == c.stats.requests + |names|
    decreases |names|
  {
    if names == [] then c
    else SearchEach(Request(c, SearchUrl(names[0]), worlds[0]).cache, names[1..], worlds[1..])
  }

  /** `warmupCache`: the list request, then, only if it succeeded, the searches. */
  function Preload(c: Cache, listWorld: World, searchWorlds: seq<World>): (r: Cache)
    requires |searchWorlds| == |WARMUP_NAMES|
    ensures Wellformed(c) ==> Wellformed(r)
  {
    var first := Request(c, ListUrl(1, 20), listWorld);
    if first.result.Failure? then first.cache
    else SearchEach(first.cache, WARMUP_NAMES, searchWorlds)
  }

  /** Warmup makes five cache lookups when the list request succeeds and one
      when it fails. */
  lemma PreloadLookups(c: Cache, listWorld: World, searchWorlds: seq<World>)
    requires |searchWorlds| == |WARMUP_NAMES|
    ensures var first := Request(c, ListUrl(1, 20), listWorld);
      Preload(c, listWorld, searchWorlds).stats.requests
        == c.stats.requests + if first.result.Success? then 5 else 1
  {
  }

  /** The list request of warmup asks for one Pokemon at offset 20. */
  lemma PreloadListUrl()
    ensures ListUrl(1, 20) == "http://localhost:3000/pokemon?limit=1&offset=20"
  {
  }

  // ---------------------------------------------------------------------------
  // The service object over the shared cache

  class PokemonService {
    const cache: CacheService.CacheService

    constructor (cache: CacheService.CacheService)
      ensures this.cache == cache
    {
      this.cache := cache;
    }

    /** `makeRequest`; `fetches` and `writes` count the network calls and
        cache writes. */
    method MakeRequest(url: string, w: World) returns (r: Result<Data, RequestError>, ghost fetches: nat, ghost writes: nat)
      requires cache.Valid()
      modifies cache
      ensures cache.Valid()
      ensures Exchange(cache.Snapshot(), r, fetches, writes) == Request(old(cache.Snapshot()), url, w)
    {
      var cached := cache.Get(url, w.now);
      if cached.Some? && Truthy(cached.value) {
        return Success(cached.value), 0, 0;
      }
      fetches, writes := 1, 0;
      match w.outcome {
        case Unreachable(reason) =>
          r := Failure(NetworkError(reason));
        case Responded(status, statusText, body) =>
          if !IsOk(status) {
            r := Failure(HttpError(StatusMessage(status, statusText)));
          } else {
            match body {
              case Malformed(reason) =>
                r := Failure(ParseError(reason));
              case Json(data) =>
                cache.Set(url, data, Some(REQUEST_TTL), w.doneAt, w.storeAccepts);
                r, writes := Success(data), 1;
            }
          }
      }
    }

    method GetPokemonByName(name: string, w: World) returns (r: Result<Data, RequestError>, ghost fetches: nat, ghost writes: nat)
      requires cache.Valid()
      modifies cache
      ensures cache.Valid()
      ensures Exchange(cache.Snapshot(), r, fetches, writes) == Request(old(cache.Snapshot()), ByNameUrl(name), w)
    {
      var url := BuildApiUrl(POKEMON_BY_NAME, Some([("name", LowerAscii(name))]));
      r, fetches, writes := MakeRequest(url, w);
    }

    method GetPokemonById(id: int, w: World) returns (r: Result<Data, RequestError>, ghost fetches: nat, ghost writes: nat)
      requires cache.Valid()
      modifies cache
      ensures cache.Valid()
      ensures Exchange(cache.Snapshot(), r, fetches, writes) == Request(old(cache.Snapshot()), ByIdUrl(id), w)
    {
      var url := BuildApiUrl(POKEMON_BY_NAME, Some([("name", IntToString(id))]));
      r, fetches, writes := MakeRequest(url, w);
    }

    method GetPokemonList(limit: int, offset: int, w: World) returns (r: Result<Data, RequestError>, ghost fetches: nat, ghost writes: nat)
      requires cache.Valid()
      modifies cache
      ensures cache.Valid()
      ensures Exchange(cache.Snapshot(), r, fetches, writes) == Request(old(cache.Snapshot()), ListUrl(limit, offset), w)
    {
      var url := BASE_URL + POKEMON + "?limit=" + IntToString(limit) + "&offset=" + IntToString(offset);
      r, fetches, writes := MakeRequest(url, w);
    }

    method SearchPokemon(query: string, w: World) returns (r: Result<Data, RequestError>, ghost fetches: nat, ghost writes: nat)
      requires cache.Valid()
      modifies cache
      ensures cache.Valid()
      ensures Exchange(cache.Snapshot(), r, fetches, writes) == Request(old(cache.Snapshot()), SearchUrl(query), w)
    {
      var url := BuildApiUrl(POKEMON_BY_NAME, Some([("name", LowerAscii(query))]));
      r, fetches, writes := MakeRequest(url, w);
    }

    method GetPokemonSpecies(name: string, w: World) returns (r: Result<Data, RequestError>, ghost fetches: nat, ghost writes: nat)
      requires cache.Valid()
      modifies cache
      ensures cache.Valid()
      ensures Exchange(cache.Snapshot(), r, fetches, writes) == Request(old(cache.Snapshot()), SpeciesUrl(name), w)
    {
      var url := BuildApiUrl(POKEMON_SPECIES, Some([("name", LowerAscii(name))]));
      r, fetches, writes := MakeRequest(url, w);
    }

    method GetPokemonEvolution(name: string, w: World) returns (r: Result<Data, RequestError>, ghost fetches: nat, ghost writes: nat)
      requires cache.Valid()
      modifies cache
      ensures cache.Valid()
      ensures Exchange(cache.Snapshot(), r, fetches, writes) == Request(old(cache.Snapshot()), EvolutionUrl(name), w)
    {
      var url := BuildApiUrl(POKEMON_EVOLUTION, Some([("name", LowerAscii(name))]));
      r, fetches, writes := MakeRequest(url, w);
    }

    method GetPokemonByType(pokemonType: string, limit: int, w: World) returns (r: Result<Data, RequestError>, ghost fetches: nat, ghost writes: nat)
      requires cache.Valid()
      modifies cache
      ensures cache.Valid()
      ensures Exchange(cache.Snapshot(), r, fetches, writes) == Request(old(cache.Snapshot()), ByTypeUrl(pokemonType, limit), w)
    {
      var base := BuildApiUrl(SEARCH_BY_TYPE, Some([("type", LowerAscii(pokemonType))]));
      r, fetches, writes := MakeRequest(base + "?limit=" + IntToString(limit), w);
    }

    /** `warmupCache`, with the four searches made one after the other. */
    method WarmupCache(listWorld: World, searchWorlds: seq<World>)
      requires cache.Valid()
      requires |searchWorlds| == |WARMUP_NAMES|
      modifies cache
      ensures cache.Valid()
      ensures cache.Snapshot() == Preload(old(cache.Snapshot()), listWorld, searchWorlds)
    {
      var first, _, _ := GetPokemonList(1, 20, listWorld);
      if first.Failure? {
        return;
      }
      ghost var listed := cache.Snapshot();
      var i := 0;
      while i < |WARMUP_NAMES|
        invariant 0 <= i <= |WARMUP_NAMES|
        invariant cache.Valid()
        invariant SearchEach(cache.Snapshot(), WARMUP_NAMES[i..], searchWorlds[i..])
               == SearchEach(listed, WARMUP_NAMES, searchWorlds)
      {
        var _, _, _ := SearchPokemon(WARMUP_NAMES[i], searchWorlds[i]);
        assert WARMUP_NAMES[i..][1..] == WARMUP_NAMES[i + 1..];
        assert searchWorlds[i..][1..] == searchWorlds[i + 1..];
        i := i + 1;
      }
    }

    function GetCacheStats(): (s: StatsReport)
      reads cache
      requires cache.Valid()
      ensures s.hits == cache.stats.hits && s.misses == cache.stats.misses
      ensures s.requests == cache.stats.requests
      ensures s.localStorageItems == |CacheKeys(cache.storage)|
      ensures s.requests == s.hits + s.misses
      ensures s.memoryItems == |cache.order|
    {
      cache.GetStats()
    }

    method ClearCache()
      requires cache.Valid()
      modifies cache
      ensures cache.Valid()
      ensures cache.Snapshot() == CacheSpec.Clear(old(cache.Snapshot()))
    {
      cache.Clear();
    }
  }

  // ---------------------------------------------------------------------------
  // Properties of makeRequest

  /** A truthy cached value is returned as is, with no network call and no write. */
  lemma CachedValueServed(c: Cache, url: string, w: World)
    requires var cached := Get(c, url, w.now).1; cached.Some? && Truthy(cached.value)
    ensures Request(c, url, w) == Exchange(Get(c, url, w.now).0, Success(Get(c, url, w.now).1.value), 0, 0)
  {
  }

  /** A miss, or a falsy cached value, costs exactly one network call. A failed
      call throws and leaves the cache as the lookup left it; a successful one
      returns the body and caches it under the URL for five minutes. */
  lemma MissFetchesOnce(c: Cache, url: string, w: World)
    requires var cached := Get(c, url, w.now).1; !(cached.Some? && Truthy(cached.value))
    ensures var x := Request(c, url, w);
      var looked := Get(c, url, w.now).0;
      && x.fetches == 1
      && (x.result.Failure? ==> x.cache == looked && x.writes == 0)
      && (w.outcome.Unreachable? ==> x.result == Failure(NetworkError(w.outcome.reason)))
      && (w.outcome.Responded? && !IsOk(w.outcome.status) ==>
            x.result == Failure(HttpError("Error " + IntToString(w.outcome.status) + ": " + w.outcome.statusText)))
      && (w.outcome.Responded? && IsOk(w.outcome.status) && w.outcome.body.Malformed? ==>
            x.result == Failure(ParseError(w.outcome.body.reason)))
      && (w.outcome.Responded? && IsOk(w.outcome.status) && w.outcome.body.Json? ==>
            var data := w.outcome.body.data;
            && x.result == Success(data)
            && x.writes == 1
            && x.cache.stats == looked.stats
            && url in x.cache.memory && x.cache.memory[url] == Item(data, w.doneAt, w.doneAt + 300000)
            && (w.storeAccepts ==>
                  StorageKey(url) in x.cache.storage
                  && x.cache.storage[StorageKey(url)] == Envelope(Item(data, w.doneAt, w.doneAt + 300000))))
  {
    if w.outcome.Responded? && IsOk(w.outcome.status) && w.outcome.body.Json? {
      CacheProperties.SetWritesBothTiers(Get(c, url, w.now).0, url, w.outcome.body.data, Some(REQUEST_TTL), w.doneAt, w.storeAccepts);
    }
  }

  /** A request that fetched a truthy body makes the same request a cache hit,
      with no network call, for the next five minutes. */
  lemma SecondRequestHits(c: Cache, url: string, w: World, w2: World)
    requires Request(c, url, w).fetches == 1
    requires Request(c, url, w).result.Success? && Truthy(Request(c, url, w).result.value)
    requires w.doneAt <= w2.now <= w.doneAt + 300000
    ensures var x := Request(c, url, w);
      var y := Request(x.cache, url, w2);
      y.result == x.result && y.fetches == 0
  {
    var x := Request(c, url, w);
    MissFetchesOnce(c, url, w);
    CacheProperties.GetFindsLiveEntries(x.cache, url, w2.now);
  }

  // ---------------------------------------------------------------------------
  // Properties of the URLs

  /** Two names reach the same cache entry exactly when they lower-case alike. */
  lemma SharedNameKey(a: string, b: string)
    ensures SearchUrl(a) == ByNameUrl(b) <==> LowerAscii(a) == LowerAscii(b)
  {
    var p := BASE_URL + "/pokemon/";
    if SearchUrl(a) == ByNameUrl(b) {
      assert LowerAscii(a) == (p + LowerAscii(a))[|p|..] == (p + LowerAscii(b))[|p|..] == LowerAscii(b);
    }
  }

  /** By-id requests are by-name requests for the decimal rendering of the id. */
  lemma IdUrl(id: int)
    ensures ByIdUrl(id) == ByNameUrl(IntToString(id))
  {
    var s := IntToString(id);
    assert forall i :: 0 <= i < |s| ==> !IsUpperAscii(s[i]) by {
      if id < 0 {
        assert forall i :: 1 <= i < |s| ==> s[i] == s[1..][i - 1];
      }
    }
    LowerAsciiKeeps(s);
  }

  /** Different pages of the list never share a cache entry. */
  lemma ListUrlInjective(limit1: int, offset1: int, limit2: int, offset2: int)
    requires ListUrl(limit1, offset1) == ListUrl(limit2, offset2)
    ensures limit1 == limit2 && offset1 == offset2
  {
    var l1, l2 := IntToString(limit1), IntToString(limit2);
    var q1, q2 := "offset=" + IntToString(offset1), "offset=" + IntToString(offset2);
    ListUrlParts(l1, IntToString(offset1));
    ListUrlParts(l2, IntToString(offset2));
    DropPrefix(BASE_URL + POKEMON + "?limit=", l1 + ['&'] + q1, l2 + ['&'] + q2);
    IntToStringChars(limit1, '&');
    IntToStringChars(limit2, '&');
    SplitAtSeparator(l1, q1, l2, q2, '&');
    IntToStringInjective(limit1, limit2);
    assert IntToString(offset1) == q1[7..] == q2[7..] == IntToString(offset2);
    IntToStringInjective(offset1, offset2);
  }

  /** The list URL cut at the `&` between the two numbers. */
  lemma ListUrlParts(l: string, o: string)
    ensures BASE_URL + POKEMON + "?limit=" + l + "&offset=" + o
         == (BASE_URL + POKEMON + "?limit=") + (l + ['&'] + ("offset=" + o))
  {
    var p := BASE_URL + POKEMON + "?limit=";
    assert "&offset=" == ['&'] + "offset=";
    Regroup(p, l, ['&'], "offset=", o);
  }
}
