/**
 * `src/utils/searchOptimization.ts`: cleaning of user input, validation of a
 * Pokemon id, memoised name suggestions, the persisted search history and the
 * search metrics.
 */
module SearchOptimization {
  import opened Wrappers
  import opened Text
  import opened Sequences

  // ---------------------------------------------------------------------------
  // cleanPokemonInput

  /** The characters the class `[a-z0-9-]` keeps. */
  predicate IsAllowed(c: char) {
    'a' <= c <= 'z' || IsDigit(c) || c == '-'
  }

  predicate AllAllowed(s: string) {
    forall i :: 0 <= i < |s| ==> IsAllowed(s[i])
  }

  /** `replace(/[^a-z0-9-]/g, '')`. */
  function KeepAllowed(s: string): (r: string)
    ensures AllAllowed(r)
    ensures |r| <= |s|
    ensures forall c :: c in r <==> c in s && IsAllowed(c)
  {
    if s == [] then []
    else (if IsAllowed(s[0]) then [s[0]] else []) + KeepAllowed(s[1..])
  }

  /** `replace(/\s+/g, '-')`: each maximal run of white space becomes one hyphen. */
  function HyphenateWhitespace(s: string): (r: string)
    ensures forall c :: c in r && c != '-' ==> c in s && !IsJsWhitespace(c)
    ensures forall c :: c in s && !IsJsWhitespace(c) ==> c in r
    ensures forall c :: c in s && IsJsWhitespace(c) ==> '-' in r
    ensures forall i :: 0 <= i < |r| ==> !IsJsWhitespace(r[i])
    decreases |s|
  {
    if s == [] then []
    else if IsJsWhitespace(s[0]) then
      var rest := TrimStart(s);
      assert |rest| < |s|;
      assert forall c :: c in s && !IsJsWhitespace(c) ==> c in rest by {
        forall c | c in s && !IsJsWhitespace(c) ensures c in rest {
          var i :| 0 <= i < |s| && s[i] == c;
          assert rest[i - (|s| - |rest|)] == c;
        }
      }
      "-" + HyphenateWhitespace(rest)
    else
      assert s == [s[0]] + s[1..];
      [s[0]] + HyphenateWhitespace(s[1..])
  }

  /** A string without white space has no run to replace. */
  lemma {:induction false} HyphenateNothing(s: string)
    requires forall i :: 0 <= i < |s| ==> !IsJsWhitespace(s[i])
    ensures HyphenateWhitespace(s) == s
    decreases |s|
  {
    if s != [] {
      HyphenateNothing(s[1..]);
    }
  }

  /** `cleanPokemonInput`: trim, lower-case, drop every character outside
      `[a-z0-9-]`, then turn white-space runs into hyphens. */
  function CleanPokemonInput(input: string): (r: string)
    ensures AllAllowed(r)
    ensures '-' in r ==> '-' in input
  {
    var kept := KeepAllowed(LowerAscii(Trim(input)));
    HyphenateNothing(kept);
    assert '-' in kept ==> '-' in input by {
      if '-' in kept {
        HyphenFromInput(input);
      }
    }
    HyphenateWhitespace(kept)
  }

  /** A hyphen that survives trimming and lower-casing was in the input. */
  lemma HyphenFromInput(input: string)
    requires '-' in LowerAscii(Trim(input))
    ensures '-' in input
  {
    var t := Trim(input);
    var i :| 0 <= i < |LowerAscii(t)| && LowerAscii(t)[i] == '-';
    assert t[i] == '-';
    var u := TrimStart(input);
    assert t == u[..|t|];
    assert u == input[|input| - |u|..];
    assert input[|input| - |u| + i] == '-';
  }

  /** Cleaning a clean string changes nothing. */
  lemma CleanIdempotent(input: string)
    ensures CleanPokemonInput(CleanPokemonInput(input)) == CleanPokemonInput(input)
  {
    var r := CleanPokemonInput(input);
    AllowedHasNoWhitespace(r);
    TrimNoWhitespace(r);
    CleanTrimmed(r);
    LowerAsciiKeeps(r);
    KeepAllowedKeeps(r);
    HyphenateNothing(r);
  }

  lemma AllowedHasNoWhitespace(s: string)
    requires AllAllowed(s)
    ensures forall i :: 0 <= i < |s| ==> !IsJsWhitespace(s[i]) && !IsUpperAscii(s[i])
  {
    forall i | 0 <= i < |s|
      ensures !IsJsWhitespace(s[i]) && !IsUpperAscii(s[i])
    {
      AllowedIsNotWhitespace(s[i]);
    }
  }

  lemma AllowedIsNotWhitespace(c: char)
    requires IsAllowed(c)
    ensures !IsJsWhitespace(c) && !IsUpperAscii(c)
  {
  }

  lemma {:induction false} KeepAllowedKeeps(s: string)
    requires AllAllowed(s)
    ensures KeepAllowed(s) == s
  {
    if s != [] {
      KeepAllowedKeeps(s[1..]);
    }
  }

  /** The character filter runs before the white-space rule, so the space
      between two words is dropped instead of becoming a hyphen: "Mr Mime"
      cleans to "mrmime". */
  lemma InnerSpaceDropped(a: string, b: string)
    requires a != [] && b != []
    requires AllAllowed(LowerAscii(a)) && AllAllowed(LowerAscii(b))
    ensures CleanPokemonInput(a + " " + b) == LowerAscii(a) + LowerAscii(b)
  {
    EdgesNotWhitespace(a, b);
    CleanTrimmed(a + " " + b);
    LowerAroundSpace(a, b);
    KeepAroundSpace(LowerAscii(a), LowerAscii(b));
  }

  /** Cleaning text without white space at either end skips the trim. */
  lemma CleanTrimmed(s: string)
    requires Trim(s) == s
    ensures CleanPokemonInput(s) == HyphenateWhitespace(KeepAllowed(LowerAscii(s)))
  {
  }

  lemma EdgesNotWhitespace(a: string, b: string)
    requires a != [] && b != []
    requires AllAllowed(LowerAscii(a)) && AllAllowed(LowerAscii(b))
    ensures Trim(a + " " + b) == a + " " + b
  {
    var s := a + " " + b;
    assert !IsJsWhitespace(s[0]) by {
      assert s[0] == a[0];
      AllowedIsNotWhitespace(LowerChar(a[0]));
    }
    assert !IsJsWhitespace(s[|s| - 1]) by {
      assert s[|s| - 1] == b[|b| - 1];
      AllowedIsNotWhitespace(LowerChar(b[|b| - 1]));
    }
    assert TrimStart(s) == s;
    assert TrimEnd(s) == s;
  }

  lemma LowerAroundSpace(a: string, b: string)
    ensures LowerAscii(a + " " + b) == LowerAscii(a) + " " + LowerAscii(b)
  {
    LowerAsciiAppend(a + " ", b);
    LowerAsciiAppend(a, " ");
    assert LowerAscii(" ") == " ";
  }

  lemma KeepAroundSpace(la: string, lb: string)
    requires AllAllowed(la) && AllAllowed(lb)
    ensures KeepAllowed(la + " " + lb) == la + lb
    ensures HyphenateWhitespace(la + lb) == la + lb
  {
    var r := la + lb;
    forall i | 0 <= i < |r|
      ensures !IsJsWhitespace(r[i])
    {
      AllowedIsNotWhitespace(r[i]);
    }
    HyphenateNothing(r);
    assert KeepAllowed(la + " ") == la by {
      KeepAllowedAppend(la, " ");
      KeepAllowedKeeps(la);
      assert KeepAllowed(" ") == [];
    }
    KeepAllowedAppend(la + " ", lb);
    KeepAllowedKeeps(lb);
  }

  lemma {:induction false} KeepAllowedAppend(a: string, b: string)
    ensures KeepAllowed(a + b) == KeepAllowed(a) + KeepAllowed(b)
  {
    if a == [] {
      assert a + b == b;
    } else {
      assert (a + b)[1..] == a[1..] + b;
      KeepAllowedAppend(a[1..], b);
    }
  }

  // ---------------------------------------------------------------------------
  // isValidPokemonId

  /** The longest prefix of decimal digits. */
  function LeadingDigits(s: string): (r: string)
    ensures AllDigits(r) && |r| <= |s| && r == s[..|r|]
    ensures |r| < |s| ==> !IsDigit(s[|r|])
  {
    if s != [] && IsDigit(s[0]) then [s[0]] + LeadingDigits(s[1..]) else []
  }

  /** `parseInt(s)` in base ten: leading white space, an optional sign and the
      longest run of digits; `None` stands for `NaN`. */
  function ParseInt(s: string): (r: Option<int>)
    ensures var t := TrimStart(s);
      t == [] || (!IsDigit(t[0]) && t[0] != '-' && t[0] != '+') ==> r == None
    ensures var t := TrimStart(s); t != [] && IsDigit(t[0]) ==> r.Some? && r.value >= 0
    ensures var t := TrimStart(s); t != [] && t[0] == '-' ==> r.None? || r.value <= 0
  {
    var t := TrimStart(s);
    var negative := t != [] && t[0] == '-';
    var body := if t != [] && (t[0] == '-' || t[0] == '+') then t[1..] else t;
    var digits := LeadingDigits(body);
    if digits == [] then None
    else
      var magnitude: int := DigitsValue(digits);
      Some(if negative then -magnitude else magnitude)
  }

  /** `isValidPokemonId`: the parsed number is one of the 1010 national
      Pokedex numbers. */
  predicate IsValidPokemonId(id: string)
    ensures IsValidPokemonId(id) ==>
      var t := TrimStart(id); t != [] && (IsDigit(t[0]) || t[0] == '+')
  {
    var n := ParseInt(id);
    n.Some? && 0 < n.value <= 1010
  }

  lemma {:induction false} LeadingDigitsAll(s: string)
    requires AllDigits(s)
    ensures LeadingDigits(s) == s
  {
    if s != [] {
      LeadingDigitsAll(s[1..]);
    }
  }

  /** `parseInt` reads back what `String(n)` renders. */
  lemma ParseRendered(n: int)
    ensures ParseInt(IntToString(n)) == Some(n)
  {
    var s := IntToString(n);
    var digits := NatToString(if n < 0 then -n else n);
    assert !IsJsWhitespace(s[0]);
    assert TrimStart(s) == s;
    LeadingDigitsAll(digits);
    NatToStringRoundTrip(if n < 0 then -n else n);
    if n < 0 {
      assert s[1..] == digits;
    } else {
      assert s[0] != '-' && s[0] != '+';
    }
  }

  /** A rendered integer is a valid id exactly when it lies in 1..1010. */
  lemma RenderedIdValid(n: int)
    ensures IsValidPokemonId(IntToString(n)) <==> 1 <= n <= 1010
  {
    ParseRendered(n);
  }

  /** Text after the digits is ignored. */
  lemma TrailingTextIgnored()
    ensures IsValidPokemonId("25abc")
  {
    assert NatToString(25) == "25";
    NatToStringRoundTrip(25);
    ParsedPrefix("25abc", "25");
  }

  /** Zero is rejected, and so are numbers past 1010. */
  lemma ZeroRejected()
    ensures !IsValidPokemonId("0")
  {
    ParsedPrefix("0", "0");
  }

  lemma AboveRangeRejected()
    ensures !IsValidPokemonId("1011")
  {
    assert NatToString(1011) == "1011";
    NatToStringRoundTrip(1011);
    ParsedPrefix("1011", "1011");
  }

  /** Text without leading digits is `NaN`, hence rejected. */
  lemma NoDigitsRejected()
    ensures !IsValidPokemonId("abc")
  {
    ParsedNothing("abc");
  }

  /** A string that opens with a character other than white space, a sign or
      a digit is `NaN`. */
  lemma ParsedNothing(s: string)
    requires s != [] && !IsJsWhitespace(s[0]) && !IsDigit(s[0]) && s[0] != '-' && s[0] != '+'
    ensures ParseInt(s) == None
  {
    assert TrimStart(s) == s;
  }

  /** A string that opens with the digits `d` (and no white space or sign)
      parses to their value. */
  lemma ParsedPrefix(s: string, d: string)
    requires d != [] && AllDigits(d) && StartsWith(s, d)
    requires |d| < |s| ==> !IsDigit(s[|d|])
    ensures ParseInt(s) == Some(DigitsValue(d))
  {
    assert s[0] == d[0] by {
      assert s[..|d|] == d;
    }
    assert IsDigit(s[0]);
    LeadingDigitsOf(s, d);
    ParseUnsigned(s);
  }

  /** Text that opens with a digit parses to the value of its leading digits. */
  lemma ParseUnsigned(s: string)
    requires s != [] && IsDigit(s[0])
    ensures LeadingDigits(s) != []
    ensures ParseInt(s) == Some(DigitsValue(LeadingDigits(s)))
  {
    assert !IsJsWhitespace(s[0]);
    assert TrimStart(s) == s;
  }

  lemma {:induction false} LeadingDigitsOf(s: string, d: string)
    requires AllDigits(d) && StartsWith(s, d)
    requires |d| < |s| ==> !IsDigit(s[|d|])
    ensures LeadingDigits(s) == d
  {
    if d != [] {
      assert s[1..][..|d| - 1] == d[1..];
      LeadingDigitsOf(s[1..], d[1..]);
    }
  }

  // ---------------------------------------------------------------------------
  // getPokemonSuggestions

  const POPULAR_POKEMON: seq<string> := [
    "pikachu", "charizard", "blastoise", "venusaur", "alakazam",
    "gengar", "dragonite", "mewtwo", "mew", "typhlosion",
    "feraligatr", "meganium", "lugia", "ho-oh", "blaziken",
    "swampert", "sceptile", "rayquaza", "dialga", "palkia",
    "arceus", "victini", "reshiram", "zekrom", "kyurem"]

  const MAX_SUGGESTIONS: nat := 5

  /** The names whose lower-cased form contains `key`, in list order. */
  function Matching(names: seq<string>, key: string): (r: seq<string>)
    ensures forall x :: x in r <==> x in names && Contains(LowerAscii(x), key)
    ensures IsSubsequence(r, names)
  {
    if names == [] then []
    else if Contains(LowerAscii(names[0]), key) then [names[0]] + Matching(names[1..], key)
    else Matching(names[1..], key)
  }

  function Take<T>(s: seq<T>, n: nat): (r: seq<T>)
    ensures |r| == if |s| <= n then |s| else n
    ensures r == s[..|r|]
  {
    if |s| <= n then s else s[..n]
  }

  /** The suggestion list computed for a (lower-cased) key. */
  function Suggest(key: string): (r: seq<string>)
    ensures var m := Matching(POPULAR_POKEMON, key);
      |r| == (if |m| <= MAX_SUGGESTIONS then |m| else MAX_SUGGESTIONS) && r == m[..|r|]
    ensures forall x :: x in r ==> x in POPULAR_POKEMON && Contains(LowerAscii(x), key)
  {
    Take(Matching(POPULAR_POKEMON, key), MAX_SUGGESTIONS)
  }

  /** What `getPokemonSuggestions(input)` resolves to. */
  function SuggestionsFor(input: string): (r: seq<string>)
    ensures |r| <= MAX_SUGGESTIONS
    ensures Utf16Length(input) < 2 ==> r == []
    ensures forall x :: x in r ==> x in POPULAR_POKEMON && Contains(LowerAscii(x), LowerAscii(input))
  {
    if Utf16Length(input) < 2 then [] else Suggest(LowerAscii(input))
  }

  /** For an input of at least two UTF-16 units: the first five (or fewer)
      popular names containing the lower-cased input, in list order; all of
      them when at most five match. */
  lemma SuggestionsSound(input: string)
    ensures var r := SuggestionsFor(input);
      && |r| <= MAX_SUGGESTIONS
      && (Utf16Length(input) < 2 ==> r == [])
      && (Utf16Length(input) >= 2 ==>
            var key := LowerAscii(input);
            var m := Matching(POPULAR_POKEMON, key);
            && |r| == (if |m| <= MAX_SUGGESTIONS then |m| else MAX_SUGGESTIONS)
            && r == m[..|r|]
            && (forall x :: x in r ==> x in POPULAR_POKEMON && Contains(LowerAscii(x), key))
            && IsSubsequence(r, POPULAR_POKEMON)
            && (|m| <= MAX_SUGGESTIONS ==>
                  forall x :: x in POPULAR_POKEMON && Contains(LowerAscii(x), key) ==> x in r))
  {
    if Utf16Length(input) >= 2 {
      var m := Matching(POPULAR_POKEMON, LowerAscii(input));
      var r := SuggestionsFor(input);
      SubsequencePrefix(m, |r|);
      SubsequenceTrans(r, m, POPULAR_POKEMON);
    }
  }

  /** The module-level `suggestionCache` map; every memoised list is the one
      the key computes (the five-minute expiry is the method Expire). */
  class SuggestionCache {
    var memo: map<string, seq<string>>

    ghost predicate Valid()
      reads this
    {
      forall k :: k in memo ==> memo[k] == Suggest(k)
    }

    constructor ()
      ensures Valid() && memo == map[]
    {
      memo := map[];
    }

    method GetPokemonSuggestions(input: string) returns (r: seq<string>)
      requires Valid()
      modifies this
      ensures Valid()
      ensures r == SuggestionsFor(input)
      ensures Utf16Length(input) < 2 ==> memo == old(memo)
      ensures Utf16Length(input) >= 2 ==> memo == old(memo)[LowerAscii(input) := r]
    {
      if Utf16Length(input) < 2 {
        return [];
      }
      var key := LowerAscii(input);
      if key in memo {
        return memo[key];
      }
      var suggestions := Take(Matching(POPULAR_POKEMON, key), MAX_SUGGESTIONS);
      memo := memo[key := suggestions];
      return suggestions;
    }

    /** The timer set when a key is memoised, firing. */
    method Expire(key: string)
      requires Valid()
      modifies this
      ensures Valid()
      ensures memo == old(memo) - {key}
    {
      memo := memo - {key};
    }
  }

  // ---------------------------------------------------------------------------
  // SearchHistory

  const MAX_HISTORY: nat := 10

  /** What the `pokemon_search_history` slot of the durable store holds: nothing,
      the empty string, a JSON array of names, text that does not parse, or
      JSON that is not an array. */
  datatype HistoryRecord = Missing | Blank | Saved(items: seq<string>) | Corrupt | NotAList

  /** `getHistory`: `None` when the slot parses to something other than an
      array (which `getHistory` hands back as it is). */
  function ReadHistory(record: HistoryRecord): (r: Option<seq<string>>)
    ensures r.None? <==> record.NotAList?
    ensures record.Saved? ==> r == Some(record.items)
    ensures !record.Saved? && r.Some? ==> r.value == []
  {
    match record
    case Missing => Some([])
    case Blank => Some([])
    case Saved(items) => Some(items)
    case Corrupt => Some([])
    case NotAList => None
  }

  /** Every element of `s` other than `x`, in order. */
  function Remove(s: seq<string>, x: string): (r: seq<string>)
    ensures x !in r
    ensures forall y :: y in r <==> y in s && y != x
    ensures IsSubsequence(r, s)
  {
    if s == [] then []
    else if s[0] == x then Remove(s[1..], x)
    else [s[0]] + Remove(s[1..], x)
  }

  /** The history after `name` is searched: moved (or put) first, capped at ten. */
  function Recorded(history: seq<string>, name: string): (r: seq<string>)
    ensures 1 <= |r| <= MAX_HISTORY && r[0] == name
  {
    Take([name] + Remove(history, name), MAX_HISTORY)
  }

  /** The new history starts with the name, holds no other copy of it, keeps
      the other entries in their order, and has at most ten entries. */
  lemma RecordedShape(history: seq<string>, name: string)
    ensures var r := Recorded(history, name);
      var rest := Remove(history, name);
      && |r| == (if 1 + |rest| <= MAX_HISTORY then 1 + |rest| else MAX_HISTORY)
      && r[0] == name
      && r[1..] == rest[..|r| - 1]
      && name !in r[1..]
      && IsSubsequence(r[1..], history)
      && (|history| < MAX_HISTORY ==> forall y :: y in history ==> y in r)
  {
    var r := Recorded(history, name);
    var full := [name] + Remove(history, name);
    assert r[1..] == full[1..|r|];
    assert full[1..] == Remove(history, name);
    assert r[1..] == Remove(history, name)[..|r| - 1];
    SubsequencePrefix(Remove(history, name), |r| - 1);
    SubsequenceTrans(r[1..], Remove(history, name), history);
    if |history| < MAX_HISTORY {
      assert |Remove(history, name)| <= |history| by {
        SubsequenceLength(Remove(history, name), history);
      }
    }
  }

  /** The static `SearchHistory` over its slot of the durable store. */
  class SearchHistory {
    var record: HistoryRecord

    constructor (persisted: HistoryRecord)
      ensures record == persisted
    {
      record := persisted;
    }

    function GetHistory(): (h: Option<seq<string>>)
      reads this
      ensures h.None? <==> record.NotAList?
      ensures record.Saved? ==> h == Some(record.items)
    {
      ReadHistory(record)
    }

    /** `addToHistory`; `accepted` is false when the store refuses the write,
        which is caught. A slot that does not hold an array makes `filter`
        throw, which is caught too. */
    method AddToHistory(pokemon: string, accepted: bool)
      modifies this
      ensures var h := ReadHistory(old(record));
        record == if h.Some? && accepted then Saved(Recorded(h.value, CleanPokemonInput(pokemon))) else old(record)
    {
      var history := GetHistory();
      if history.None? {
        return;
      }
      var cleanName := CleanPokemonInput(pokemon);
      var filtered := Remove(history.value, cleanName);
      filtered := [cleanName] + filtered;
      var limited := Take(filtered, MAX_HISTORY);
      if accepted {
        record := Saved(limited);
      }
    }

    method ClearHistory()
      modifies this
      ensures record == Missing
    {
      record := Missing;
    }
  }

  // ---------------------------------------------------------------------------
  // SearchMetrics

  const MAX_SEARCH_TIMES: nat := 100
  const KEPT_SEARCH_TIMES: nat := 50

  /** `searchTimes` after one more duration: once it passes 100 entries, only
      the last 50 are kept. */
  function Window(times: seq<int>, duration: int): (r: seq<int>)
    ensures |times| < MAX_SEARCH_TIMES ==> r == times + [duration]
    ensures |times| >= MAX_SEARCH_TIMES ==> r == (times + [duration])[|times| + 1 - KEPT_SEARCH_TIMES..]
  {
    var pushed := times + [duration];
    if |pushed| > MAX_SEARCH_TIMES then pushed[|pushed| - KEPT_SEARCH_TIMES..] else pushed
  }

  /** The window never holds more than 100 durations, ends with the newest
      one, and is a suffix of the durations seen. */
  lemma WindowBounded(times: seq<int>, duration: int)
    requires |times| <= MAX_SEARCH_TIMES
    ensures var r := Window(times, duration);
      && 1 <= |r| <= MAX_SEARCH_TIMES
      && r[|r| - 1] == duration
      && r == (times + [duration])[|times| + 1 - |r|..]
  {
  }

  /** The counts `getStats` reports (the rates and averages are floating point
      and not part of this model). */
  datatype MetricsReport = MetricsReport(totalSearches: nat, cacheHits: nat, lastSearchTimes: seq<int>)

  /** `slice(-5)`: the last five entries, or all of them. */
  function LastFive(times: seq<int>): (r: seq<int>)
    ensures |r| == if |times| < 5 then |times| else 5
    ensures r == times[|times| - |r|..]
  {
    if |times| < 5 then times else times[|times| - 5..]
  }

  /** The static `SearchMetrics` counters; `now` is the clock. */
  class SearchMetrics {
    var searches: nat
    var cacheHits: nat
    var searchTimes: seq<int>

    ghost predicate Valid()
      reads this
    {
      |searchTimes| <= MAX_SEARCH_TIMES
    }

    constructor ()
      ensures Valid() && searches == 0 && cacheHits == 0 && searchTimes == []
    {
      searches, cacheHits, searchTimes := 0, 0, [];
    }

    method StartSearch(now: int) returns (startTime: int)
      modifies this`searches
      ensures searches == old(searches) + 1
      ensures startTime == now
    {
      searches := searches + 1;
      return now;
    }

    method EndSearch(startTime: int, fromCache: bool, now: int)
      requires Valid()
      modifies this`cacheHits, this`searchTimes
      ensures Valid()
      ensures cacheHits == old(cacheHits) + if fromCache then 1 else 0
      ensures searchTimes == Window(old(searchTimes), now - startTime)
    {
      var duration := now - startTime;
      if fromCache {
        cacheHits := cacheHits + 1;
      }
      searchTimes := searchTimes + [duration];
      if |searchTimes| > MAX_SEARCH_TIMES {
        searchTimes := searchTimes[|searchTimes| - KEPT_SEARCH_TIMES..];
      }
    }

    function GetStats(): (s: MetricsReport)
      reads this
      ensures s.totalSearches == searches && s.cacheHits == cacheHits
      ensures s.lastSearchTimes == LastFive(searchTimes)
      ensures |s.lastSearchTimes| == if |searchTimes| < 5 then |searchTimes| else 5
      ensures s.lastSearchTimes == searchTimes[|searchTimes| - |s.lastSearchTimes|..]
    {
      MetricsReport(searches, cacheHits, LastFive(searchTimes))
    }

    method Reset()
      modifies this
      ensures Valid() && searches == 0 && cacheHits == 0 && searchTimes == []
    {
      searches, cacheHits, searchTimes := 0, 0, [];
    }
  }
}
