/**
 * `src/config/api.ts`: the backend's base URL, its endpoint templates, and
 * `buildApiUrl`, which replaces `:key` placeholders with parameter values.
 */
module ApiConfig {
  import opened Wrappers
  import opened Text

  const BASE_URL: string := "http://localhost:3000"

  const POKEMON: string := "/pokemon"
  const POKEMON_BY_NAME: string := "/pokemon/:name"
  const POKEMON_SPECIES: string := "/pokemon/:name/species"
  const POKEMON_EVOLUTION: string := "/pokemon/:name/evolution"
  const TYPES: string := "/types"
  const TYPE_INFO: string := "/type/:name"
  const SEARCH_BY_TYPE: string := "/search/type/:type"
  const GENERATIONS: string := "/generations"
  const GENERATION_INFO: string := "/generation/:id"

  /** One entry of the `params` record, in `Object.entries` order, its value
      already rendered with `String`. */
  type Param = (string, string)

  /** The URL after each param, in order, has replaced the first occurrence of
      `:` followed by its key in the result of the previous replacement. */
  function Substitute(url: string, params: seq<Param>): (r: string)
    ensures (forall i :: 0 <= i < |params| ==> !Contains(url, ":" + params[i].0)) ==> r == url
    decreases |params|
  {
    if params == [] then url
    else Substitute(ReplaceFirst(url, ":" + params[0].0, params[0].1), params[1..])
  }

  /** What `buildApiUrl(endpoint, params)` returns, as a function. */
  function BuildUrl(endpoint: string, params: seq<Param>): (r: string)
    ensures (forall i :: 0 <= i < |params| ==> !Contains(BASE_URL + endpoint, ":" + params[i].0))
      ==> r == BASE_URL + endpoint
  {
    Substitute(BASE_URL + endpoint, params)
  }

  /** `buildApiUrl`: the base URL followed by the endpoint, then the params
      applied one after the other. */
  method BuildApiUrl(endpoint: string, params: Option<seq<Param>>) returns (url: string)
    ensures params.None? ==> url == BASE_URL + endpoint
    ensures params.Some? ==> url == Substitute(BASE_URL + endpoint, params.value)
  {
    url := BASE_URL + endpoint;
    if params.Some? {
      var entries := params.value;
      var i := 0;
      while i < |entries|
        invariant 0 <= i <= |entries|
        invariant Substitute(url, entries[i..]) == Substitute(BASE_URL + endpoint, entries)
      {
        url := ReplaceFirst(url, ":" + entries[i].0, entries[i].1);
        assert entries[i..][1..] == entries[i + 1..];
        i := i + 1;
      }
    }
  }

  /** Applying two lists of params is applying the first list, then the second
      to its result. */
  lemma {:induction false} SubstituteAppend(url: string, p: seq<Param>, q: seq<Param>)
    ensures Substitute(url, p + q) == Substitute(Substitute(url, p), q)
    decreases |p|
  {
    if p == [] {
      assert p + q == q;
    } else {
      assert (p + q)[0] == p[0];
      assert (p + q)[1..] == p[1..] + q;
      SubstituteAppend(ReplaceFirst(url, ":" + p[0].0, p[0].1), p[1..], q);
    }
  }

  /** A param whose placeholder is absent leaves the URL unchanged; otherwise
      only its first occurrence is replaced, and the text around it is kept. */
  lemma SubstituteOne(url: string, key: string, value: string)
    ensures !Contains(url, ":" + key) ==> Substitute(url, [(key, value)]) == url
    ensures Contains(url, ":" + key) ==>
      var i := IndexOf(url, ":" + key);
      && Substitute(url, [(key, value)]) == url[..i] + value + url[i + |key| + 1..]
      && forall j :: 0 <= j < i ==> !OccursAt(url, ":" + key, j)
  {
    assert [(key, value)][1..] == [];
  }

  /** A placeholder `:key` that opens the endpoint's first `:` is found
      there, past the base URL, as long as `key` cannot match the `:` of the
      scheme or of the port. */
  lemma EndpointPlaceholder(endpoint: string, key: string, k: int)
    requires key != [] && key[0] != '/' && key[0] != '3'
    requires OccursAt(endpoint, ":" + key, k)
    requires ':' !in endpoint[..k]
    ensures IndexOf(BASE_URL + endpoint, ":" + key) == |BASE_URL| + k
  {
    var u := BASE_URL + endpoint;
    var p := ":" + key;
    assert u[..21] == "http://localhost:3000";
    assert u[21..] == endpoint;
    assert u[|BASE_URL| + k..|BASE_URL| + k + |p|] == endpoint[k..k + |p|];
    NoOccurrenceIn(u, p, 0, 4);
    NoOccurrenceIn(u, p, 5, 16);
    NoOccurrenceIn(u, p, 17, 21);
    assert u[21..21 + k] == endpoint[..k];
    NoOccurrenceIn(u, p, 21, 21 + k);
    assert u[5] == '/' && u[17] == '3';
    forall i | i == 4 || i == 16
      ensures !OccursAt(u, p, i)
    {
      if i + |p| <= |u| {
        assert u[i..i + |p|][1] == u[i + 1] != key[0] == p[1];
      }
    }
    IndexOfIs(u, p, |BASE_URL| + k);
  }

  /** An endpoint with a single placeholder, given its value: the value takes
      the placeholder's place and the rest of the URL is kept. */
  lemma SingleParamUrl(prefix: string, key: string, rest: string, v: string)
    requires key != [] && key[0] != '/' && key[0] != '3'
    requires ':' !in prefix
    ensures BuildUrl(prefix + ":" + key + rest, [(key, v)]) == BASE_URL + prefix + v + rest
  {
    var e := prefix + ":" + key + rest;
    var p := ":" + key;
    var k := |prefix|;
    assert e[..k] == prefix;
    assert e[k..k + |p|] == p;
    EndpointPlaceholder(e, key, k);
    var u := BASE_URL + e;
    var ps := [(key, v)];
    assert Substitute(u, ps) == Substitute(ReplaceFirst(u, p, v), ps[1..]);
    assert u[..|BASE_URL| + k] == BASE_URL + prefix;
    assert u[|BASE_URL| + k + |p|..] == rest;
  }

  /** `buildApiUrl(POKEMON_BY_NAME, { name: v })` puts `v` after `/pokemon/`. */
  lemma NameEndpointUrl(v: string)
    ensures BuildUrl(POKEMON_BY_NAME, [("name", v)]) == BASE_URL + "/pokemon/" + v
  {
    assert POKEMON_BY_NAME == "/pokemon/" + ":" + "name" + "";
    SingleParamUrl("/pokemon/", "name", "", v);
  }

  /** `buildApiUrl(POKEMON_BY_NAME, { name: 'pikachu' })`. */
  lemma PikachuUrl()
    ensures BuildUrl(POKEMON_BY_NAME, [("name", "pikachu")]) == "http://localhost:3000/pokemon/pikachu"
  {
    NameEndpointUrl("pikachu");
  }

  /** The search covers the base URL too: a key `3000` rewrites the port
      instead of a placeholder of the endpoint. */
  lemma PortIsAPlaceholder(endpoint: string, v: string)
    ensures BuildUrl(endpoint, [("3000", v)]) == "http://localhost" + v + endpoint
  {
    var u := BASE_URL + endpoint;
    var p := ":3000";
    PortFound(endpoint);
    var ps := [("3000", v)];
    assert ":" + ps[0].0 == p;
    assert Substitute(u, ps) == ReplaceFirst(u, p, v) by {
      assert ps[1..] == [];
    }
    assert u[..16] == "http://localhost";
    assert u[21..] == endpoint;
  }

  /** The first `:3000` of a URL is the port of the base URL. */
  lemma PortFound(endpoint: string)
    ensures IndexOf(BASE_URL + endpoint, ":3000") == 16
  {
    var u := BASE_URL + endpoint;
    var p := ":3000";
    assert u[..21] == BASE_URL;
    assert u[5] == '/';
    assert u[16..21] == p;
    NoOccurrenceIn(u, p, 0, 4);
    NoOccurrenceIn(u, p, 5, 16);
    assert !OccursAt(u, p, 4) by {
      if 9 <= |u| {
        assert u[4..9][1] == u[5];
      }
    }
    IndexOfIs(u, p, 16);
  }
}
