/**
 * The browser-side request cache of the plugin (reliquary-api-cache.js):
 * the answer of an API call is kept in `localStorage` under a key hashed
 * from the call's arguments, with a second entry holding its expiration
 * time, and the promise itself is pooled in memory so that repeated
 * requests share it. The page's `localStorage` and the request pool are
 * the fields of one object; the clock, the API call's eventual answer and
 * `JSON.parse` are parameters.
 */
module ApiCache {
  import opened Optional
  import opened JsValues
  import PhpValues

  // ---------------------------------------------------------------------
  // hashString

  const TwoTo32: int := 0x1_0000_0000

  /** `x << 0`: the 32-bit two's complement integer congruent to `x`. */
  function Int32(x: int): (r: int)
    ensures -0x8000_0000 <= r < 0x8000_0000
    ensures (x - r) % TwoTo32 == 0
  {
    var m := x % TwoTo32;
    if m >= 0x8000_0000 then m - TwoTo32 else m
  }

  /** Congruent numbers have the same 32-bit value. */
  lemma Int32Congruent(x: int, y: int)
    requires (x - y) % TwoTo32 == 0
    ensures Int32(x) == Int32(y)
  {
    assert x % TwoTo32 == y % TwoTo32;
  }

  /** The UTF-16 code units of a character, as `charCodeAt` reads them. */
  function CharUnits(c: char): (r: seq<int>)
    ensures 1 <= |r| <= 2 && (|r| == 1 <==> c as int < 0x10000)
    ensures forall k :: 0 <= k < |r| ==> 0 <= r[k] < 0x10000
  {
    var n := c as int;
    if n < 0x10000 then [n] else [0xD800 + (n - 0x10000) / 0x400, 0xDC00 + (n - 0x10000) % 0x400]
  }

  /**
   * The UTF-16 code units of a text: what `length` counts. Each unit is
   * 16 bits wide, and a text with no character beyond the Basic
   * Multilingual Plane has one unit per character, its code point.
   */
  function Units(s: string): (r: seq<int>)
    ensures |r| >= |s|
    ensures forall k :: 0 <= k < |r| ==> 0 <= r[k] < 0x10000
    ensures (forall i :: 0 <= i < |s| ==> s[i] as int < 0x10000) ==>
      |r| == |s| && forall i :: 0 <= i < |s| ==> r[i] == s[i] as int
  {
    if s == [] then [] else CharUnits(s[0]) + Units(s[1..])
  }

  /** One turn of the loop: `((hash << 5) - hash + unit) << 0`. */
  function HashStep(h: int, u: int): int
  {
    Int32(Int32(h * 32) - h + u)
  }

  /** The hash the loop leaves after the given code units, starting from 0. */
  function Hash(units: seq<int>): int
  {
    if units == [] then 0 else HashStep(Hash(units[..|units| - 1]), units[|units| - 1])
  }

  /** The polynomial `u0 * 31^(n-1) + ... + u(n-1)`, without any wrap-around. */
  function Poly(units: seq<int>): int
  {
    if units == [] then 0 else 31 * Poly(units[..|units| - 1]) + units[|units| - 1]
  }

  /** A turn multiplies by 31 and adds the unit, modulo 2^32. */
  lemma HashStepIs31(h: int, u: int)
    ensures HashStep(h, u) == Int32(31 * h + u)
  {
    var a := Int32(h * 32);
    assert (h * 32 - a) % TwoTo32 == 0;
    assert (a - h + u) - (31 * h + u) == a - h * 32;
    Int32Congruent(a - h + u, 31 * h + u);
  }

  /** The hash is the 32-bit value of the polynomial: Java's `String.hashCode` over UTF-16 units. */
  lemma {:induction false} HashIsPoly(units: seq<int>)
    ensures Hash(units) == Int32(Poly(units))
  {
    if units != [] {
      var init, u := units[..|units| - 1], units[|units| - 1];
      HashIsPoly(init);
      HashStepIs31(Hash(init), u);
      var p := Poly(init);
      ScaledCongruence(p, Int32(p), u);
    }
  }

  /** Multiplying congruent numbers by 31 and adding the same unit keeps them congruent. */
  lemma ScaledCongruence(p: int, q: int, u: int)
    requires (p - q) % TwoTo32 == 0
    ensures Int32(31 * q + u) == Int32(31 * p + u)
  {
    var m := (p - q) / TwoTo32;
    assert p - q == TwoTo32 * m;
    assert (31 * p + u) - (31 * q + u) == TwoTo32 * (31 * m);
    Int32Congruent(31 * p + u, 31 * q + u);
  }

  /** The text every cache key starts with. */
  const RequestPrefix: string := "reliquary.cache.request"

  /** The key `hashString` gives for a text. */
  function HashKey(text: string): string
  {
    RequestPrefix + PhpValues.IntText(Hash(Units(text)))
  }

  /** `hashString(str)`. */
  method HashString(str: string) returns (key: string)
    ensures key == HashKey(str)
  {
    var units := Units(str);
    var hash := 0;
    var i := 0;
    while i < |units|
      invariant 0 <= i <= |units|
      invariant hash == Hash(units[..i])
    {
      assert units[..i + 1][..i] == units[..i];
      hash := Int32(Int32(hash * 32) - hash + units[i]);
      i := i + 1;
    }
    assert units[..|units|] == units;
    key := RequestPrefix + PhpValues.IntText(hash);
  }

  // ---------------------------------------------------------------------
  // The request key

  /**
   * `JSON.stringify(arguments)` for `run(apiCall, apiCallParams,
   * expiration)`: the arguments as an object keyed "0", "1" and "2".
   */
  function RequestText(apiCall: JsValue, params: JsValue, expiration: JsValue): string
  {
    Stringify(JsObject([("0", apiCall), ("1", params), ("2", expiration)])).value
  }

  /** The key a request is cached under. */
  function RequestKey(apiCall: JsValue, params: JsValue, expiration: JsValue): string
  {
    HashKey(RequestText(apiCall, params, expiration))
  }

  /**
   * As written, the call does not take part in the key: `JSON.stringify`
   * leaves a function out, so two different API calls with the same
   * parameters share one cache entry and one pooled promise.
   */
  lemma CallIgnoredInKey(f: string, g: string, params: JsValue, expiration: JsValue)
    ensures RequestKey(JsFunction(f), params, expiration) == RequestKey(JsFunction(g), params, expiration)
  {
    var pf := [("0", JsFunction(f)), ("1", params), ("2", expiration)];
    var pg := [("0", JsFunction(g)), ("1", params), ("2", expiration)];
    var mf := seq(|pf|, k requires 0 <= k < |pf| => MemberJson(pf[k].0, pf[k].1));
    var mg := seq(|pg|, k requires 0 <= k < |pg| => MemberJson(pg[k].0, pg[k].1));
    assert mf[0] == None == mg[0];
    assert mf[1..] == mg[1..];
    assert Present(mf) == Present(mf[1..]) == Present(mg[1..]) == Present(mg);
  }

  /** The corrected text of a request: the call's name beside its parameters and expiration. */
  function NamedRequestText(name: string, params: JsValue, expiration: JsValue): string
  {
    Stringify(JsArray([JsString(name), params, expiration])).value
  }

  /** Requests to differently named calls have different texts. */
  lemma NamedRequestTextDistinct(a: string, b: string, params: JsValue, expiration: JsValue)
    requires a != b
    ensures NamedRequestText(a, params, expiration) != NamedRequestText(b, params, expiration)
  {
    var tail := JoinWith([ItemJson(params), ItemJson(expiration)], ",") + "]";
    NamedText(a, params, expiration);
    NamedText(b, params, expiration);
    if NamedRequestText(a, params, expiration) == NamedRequestText(b, params, expiration) {
      assert Quote(a) + ("," + tail) == NamedRequestText(a, params, expiration)[1..]
        == NamedRequestText(b, params, expiration)[1..] == Quote(b) + ("," + tail);
      QuoteInjective(a, b, "," + tail, "," + tail);
    }
  }

  lemma NamedText(name: string, params: JsValue, expiration: JsValue)
    ensures NamedRequestText(name, params, expiration)
      == "[" + (Quote(name) + ("," + (JoinWith([ItemJson(params), ItemJson(expiration)], ",") + "]")))
  {
    var items := [JsString(name), params, expiration];
    var parts := ItemsJson(items);
    var tail := [ItemJson(params), ItemJson(expiration)];
    assert Stringify(JsString(name)) == Some(Quote(name));
    assert parts[0] == Quote(name) && parts[1] == tail[0] && parts[2] == tail[1];
    assert parts == [Quote(name)] + tail;
    JoinFirst(Quote(name), tail);
    var q, rest := Quote(name), JoinWith(tail, ",");
    assert NamedRequestText(name, params, expiration) == "[" + (q + "," + rest) + "]";
    assert "[" + (q + "," + rest) + "]" == "[" + (q + ("," + (rest + "]")));
  }

  /** The JSON of the items of an array. */
  function ItemsJson(items: seq<JsValue>): (r: seq<string>)
    ensures |r| == |items| && forall k :: 0 <= k < |items| ==> r[k] == ItemJson(items[k])
    ensures Stringify(JsArray(items)) == Some("[" + JoinWith(r, ",") + "]")
  {
    seq(|items|, k requires 0 <= k < |items| => ItemJson(items[k]))
  }

  lemma JoinFirst(first: string, rest: seq<string>)
    requires rest != []
    ensures JoinWith([first] + rest, ",") == first + "," + JoinWith(rest, ",")
  {
    assert ([first] + rest)[1..] == rest;
  }

  // ---------------------------------------------------------------------
  // Searching text

  /** `s.indexOf(t)`, with `|s|` for -1. */
  function IndexOfText(s: string, t: string): (i: nat)
    requires t != []
    ensures i <= |s|
    ensures i < |s| ==> i + |t| <= |s| && s[i..i + |t|] == t
    decreases |s|
  {
    if |s| < |t| then |s| else if s[..|t|] == t then 0 else 1 + IndexOfText(s[1..], t)
  }

  /** `s.indexOf(t) > -1`. */
  predicate Contains(s: string, t: string)
    requires t != []
  {
    IndexOfText(s, t) < |s|
  }

  /** Nothing before the position `indexOf` finds is an occurrence. */
  lemma {:induction false} IndexOfTextFirst(s: string, t: string, j: nat)
    requires t != [] && j < IndexOfText(s, t) && j + |t| <= |s|
    ensures s[j..j + |t|] != t
    decreases |s|
  {
    if j > 0 {
      assert s[1..][j - 1..j - 1 + |t|] == s[j..j + |t|];
      IndexOfTextFirst(s[1..], t, j - 1);
    }
  }

  /** A text starting with `t` finds it at once. */
  lemma PrefixFound(t: string, rest: string)
    requires t != []
    ensures IndexOfText(t + rest, t) == 0
  {
    assert (t + rest)[..|t|] == t;
  }

  /** A text shorter than `t` does not hold it. */
  lemma ShortLacks(s: string, t: string)
    requires t != [] && |s| < |t|
    ensures !Contains(s, t)
  {
  }

  /** When the first character of `t` is not in `a`, `t` is found right after `a`. */
  lemma {:induction false} FoundAfter(a: string, t: string, b: string)
    requires t != [] && t[0] !in a
    ensures IndexOfText(a + t + b, t) == |a|
    decreases |a|
  {
    if a == [] {
      PrefixFound(t, b);
      assert a + t + b == t + b;
    } else {
      var s := a + t + b;
      assert s[0] == a[0] != t[0];
      assert s[..|t|] != t;
      assert s[1..] == a[1..] + t + b;
      FoundAfter(a[1..], t, b);
    }
  }

  /** The text before the first occurrence of `t` does not hold `t`. */
  lemma BeforeFirstLacks(s: string, t: string)
    requires t != []
    ensures !Contains(s[..IndexOfText(s, t)], t)
  {
    var i := IndexOfText(s, t);
    var a := s[..i];
    var j := IndexOfText(a, t);
    if j < |a| {
      assert a[j..j + |t|] == s[j..j + |t|];
      IndexOfTextFirst(s, t, j);
    }
  }

  // ---------------------------------------------------------------------
  // Stored data

  /** The prefix that marks a stored text as JSON to be parsed. */
  const Marker: string := "$$obj$$"

  /** What `JSON.parse` throws. */
  datatype ParseError = SyntaxError

  /** `JSON.parse(text)`, with its failure as the thrown error. */
  function JsonParse(parse: string -> Option<JsValue>, text: string): Outcome<JsValue, ParseError>
  {
    var v := parse(text);
    if v.Some? then Done(v.value) else Thrown(SyntaxError)
  }

  /** `data.split(marker)[1]`: the text between the first marker and the next, if there is a marker. */
  function SecondPiece(data: string): Option<string>
  {
    var i := IndexOfText(data, Marker);
    if i == |data| then None
    else
      var rest := data[i + |Marker|..];
      Some(rest[..IndexOfText(rest, Marker)])
  }

  /** `getLocalData` given the stored text: the JSON after a marker parsed, any other text as it is. */
  function GetLocalData(data: string, parse: string -> Option<JsValue>): Outcome<JsValue, ParseError>
  {
    var piece := SecondPiece(data);
    if piece.Some? && piece.value != "" then JsonParse(parse, piece.value) else Done(JsString(data))
  }

  /** The text `runAPICall` stores for an answer: objects (and null) as the marker and their JSON, the rest as `String` gives. */
  function StoredText(data: JsValue): string
  {
    if IsObject(data) then Marker + Stringify(data).value else ToText(data)
  }

  /** A marked text without a second marker is parsed whole. */
  lemma MarkedText(json: string, parse: string -> Option<JsValue>)
    requires json != "" && !Contains(json, Marker)
    ensures GetLocalData(Marker + json, parse) == JsonParse(parse, json)
  {
    PrefixFound(Marker, json);
    assert (Marker + json)[|Marker|..] == json;
    assert json[..|json|] == json;
  }

  /** An object is read back by parsing its JSON again, unless that JSON holds the marker. */
  lemma ReadBackObject(v: JsValue, parse: string -> Option<JsValue>)
    requires IsObject(v) && !Contains(Stringify(v).value, Marker)
    ensures GetLocalData(StoredText(v), parse) == JsonParse(parse, Stringify(v).value)
  {
    MarkedText(Stringify(v).value, parse);
  }

  /** Any other answer comes back as a string: its text, unless that text holds the marker. */
  lemma ReadBackText(v: JsValue, parse: string -> Option<JsValue>)
    requires !IsObject(v) && !Contains(ToText(v), Marker)
    ensures GetLocalData(StoredText(v), parse) == Done(JsString(ToText(v)))
  {
  }

  /** A string answer that starts with the marker is parsed when it is read back. */
  lemma MarkedStringParsed(parse: string -> Option<JsValue>)
    ensures StoredText(JsString(Marker + "1")) == Marker + "1"
    ensures GetLocalData(Marker + "1", parse) == JsonParse(parse, "1")
  {
    ShortLacks("1", Marker);
    MarkedText("1", parse);
  }

  // ---------------------------------------------------------------------
  // Expiration times

  /** The suffix of the key that holds an entry's expiration time. */
  const ExpirationSuffix: string := "_expiration"

  /** The key the storage test writes and removes again. */
  const TestKey: string := "localStorageTest"

  /** The text every key of the cache holds. */
  const CacheMark: string := "reliquary.cache"

  /** Seconds an answer is kept when no expiration is given. */
  const DefaultExpiration: int := 900

  /** The time an answer fetched at `now` expires: `expiration || 900` seconds later. */
  function ExpireTime(now: int, expiration: JsValue): int
    requires !Truthy(expiration) || expiration.JsNumber?
  {
    now + if Truthy(expiration) then expiration.n else DefaultExpiration
  }

  /**
   * A stored text as a comparison with a number reads it: the empty text
   * as 0, an optionally signed run of digits as its value, anything else
   * as `None` (NaN, or a form this model does not read).
   */
  function NumberText(s: string): Option<int>
  {
    if s == "" then Some(0)
    else if s[0] == '-' && |s| > 1 && PhpValues.AllDigits(s[1..]) then Some(0 - PhpValues.DigitsValue(s[1..]))
    else if PhpValues.AllDigits(s) then Some(PhpValues.DigitsValue(s))
    else None
  }

  /** A stored time reads back as that time. */
  lemma NumberTextOfInt(n: int)
    ensures NumberText(PhpValues.IntText(n)) == Some(n)
  {
    var d := PhpValues.NatText(if n < 0 then -n else n);
    PhpValues.NatTextValue(if n < 0 then -n else n);
    if n < 0 {
      assert PhpValues.IntText(n) == "-" + d;
      NumberTextNegative(d);
    } else {
      assert PhpValues.IntText(n) == d;
      NumberTextDigits(d);
    }
  }

  lemma NumberTextDigits(d: string)
    requires PhpValues.Digits(d)
    ensures NumberText(d) == Some(PhpValues.DigitsValue(d))
  {
    assert d[0] != '-';
  }

  lemma NumberTextNegative(d: string)
    requires PhpValues.Digits(d)
    ensures NumberText("-" + d) == Some(0 - PhpValues.DigitsValue(d))
  {
    assert ("-" + d)[1..] == d;
  }

  /** `now > localStorage.getItem(key + '_expiration')`: a missing time counts as 0. */
  predicate Expired(storage: map<string, string>, key: string, now: int)
  {
    var k := key + ExpirationSuffix;
    if k !in storage then now > 0
    else var t := NumberText(storage[k]); t.Some? && now > t.value
  }

  /** `key.split('_expiration')[0]`: the data key an expiration key belongs to. */
  function DataKey(key: string): string
  {
    key[..IndexOfText(key, ExpirationSuffix)]
  }

  /** An expiration key `clearExpiredCache` removes: a cache key naming a time before `now`. */
  predicate StaleEntry(storage: map<string, string>, key: string, now: int)
  {
    && key in storage
    && Contains(key, CacheMark)
    && Contains(key, ExpirationSuffix)
    && var t := NumberText(storage[key]); t.Some? && t.value < now
  }

  /** A printed integer holds no underscore. */
  lemma IntTextPlain(n: int)
    ensures '_' !in PhpValues.IntText(n)
  {
    PhpValues.IntTextSign(n);
    var t := PhpValues.IntText(n);
    if n < 0 {
      assert PhpValues.Digits(t[1..]);
      assert forall i :: 0 <= i < |t| ==> t[i] == '-' || PhpValues.IsDigit(t[i]);
    } else {
      assert PhpValues.Digits(t);
    }
  }

  /** A cache key starts with the cache's mark and holds no underscore. */
  lemma HashKeyPlain(text: string)
    ensures '_' !in HashKey(text)
    ensures |HashKey(text)| >= |CacheMark| && HashKey(text)[..|CacheMark|] == CacheMark
  {
    var digits := PhpValues.IntText(Hash(Units(text)));
    IntTextPlain(Hash(Units(text)));
    assert '_' !in ".request";
    assert HashKey(text) == CacheMark + ".request" + digits;
  }

  /** A text that starts with the cache's mark contains it. */
  lemma MarkedKey(s: string)
    requires |s| >= |CacheMark| && s[..|CacheMark|] == CacheMark
    ensures Contains(s, CacheMark)
  {
    assert s == CacheMark + s[|CacheMark|..];
    PrefixFound(CacheMark, s[|CacheMark|..]);
  }

  /** The keys of an entry are cache keys, and its expiration key belongs to its data key. */
  lemma EntryKeys(text: string)
    ensures var key := HashKey(text);
      && Contains(key, CacheMark)
      && Contains(key + ExpirationSuffix, CacheMark)
      && Contains(key + ExpirationSuffix, ExpirationSuffix)
      && DataKey(key + ExpirationSuffix) == key
  {
    var key := HashKey(text);
    HashKeyPlain(text);
    MarkedKey(key);
    assert (key + ExpirationSuffix)[..|CacheMark|] == CacheMark;
    MarkedKey(key + ExpirationSuffix);
    FoundAfter(key, ExpirationSuffix, "");
    assert key + ExpirationSuffix + "" == key + ExpirationSuffix;
    assert (key + ExpirationSuffix)[..|key|] == key;
  }

  // ---------------------------------------------------------------------
  // Clearing the cache

  /** The keys among `keys` that hold the cache's mark. */
  function MarkedAmong(keys: set<string>): (r: set<string>)
    ensures forall k :: k in r <==> k in keys && Contains(k, CacheMark)
  {
    set k | k in keys && Contains(k, CacheMark)
  }

  /** The keys `clearCache` removes: those holding the cache's mark. */
  function CacheKeys(storage: map<string, string>): (r: set<string>)
    ensures forall k :: k in r <==> k in storage && Contains(k, CacheMark)
  {
    MarkedAmong(storage.Keys)
  }

  /** The keys one step of `clearCache` removes for the key `k`. */
  function MarkedOnly(k: string): set<string>
  {
    if Contains(k, CacheMark) then {k} else {}
  }

  /** Visiting one more key in `clearCache`. */
  lemma MarkedStep(keys: set<string>, k: string)
    ensures MarkedAmong(keys + {k}) == MarkedAmong(keys) + MarkedOnly(k)
  {
  }

  /** The stale expiration keys among `visited`. */
  function StaleAmong(storage: map<string, string>, now: int, visited: set<string>): (r: set<string>)
    ensures forall k :: k in r <==> k in visited && StaleEntry(storage, k, now)
  {
    set j | j in visited && StaleEntry(storage, j, now)
  }

  /**
   * The keys `clearExpiredCache` removes once it has visited the keys in
   * `visited`: every stale expiration key among them and the data key it
   * belongs to.
   */
  function Swept(storage: map<string, string>, now: int, visited: set<string>): (r: set<string>)
    ensures forall k :: k in visited && StaleEntry(storage, k, now) ==> k in r && DataKey(k) in r
    ensures forall k :: k in r ==> exists j :: j in visited && StaleEntry(storage, j, now) && (k == j || k == DataKey(j))
  {
    var stale := StaleAmong(storage, now, visited);
    stale + DataKeys(stale)
  }

  /** The data keys of some expiration keys. */
  function DataKeys(keys: set<string>): (r: set<string>)
    ensures forall j :: j in keys ==> DataKey(j) in r
  {
    set j | j in keys :: DataKey(j)
  }

  lemma DataKeysAdd(keys: set<string>, k: string)
    ensures DataKeys(keys + {k}) == DataKeys(keys) + {DataKey(k)}
  {
  }

  /** Visiting one more key adds that key and its data key when it is stale, and nothing otherwise. */
  lemma SweptStep(storage: map<string, string>, now: int, visited: set<string>, k: string)
    ensures Swept(storage, now, visited + {k})
      == Swept(storage, now, visited) + if StaleEntry(storage, k, now) then {k, DataKey(k)} else {}
  {
    var a := StaleAmong(storage, now, visited);
    var b := StaleAmong(storage, now, visited + {k});
    if StaleEntry(storage, k, now) {
      assert b == a + {k};
      DataKeysAdd(a, k);
    } else {
      assert b == a;
    }
  }

  /** Removing two sets of keys one after the other. */
  lemma RemoveTwice(storage: map<string, string>, a: set<string>, b: set<string>)
    ensures storage - a - b == storage - (a + b)
  {
  }

  /** A data key never holds the expiration suffix, so it is never a stale expiration key. */
  lemma DataKeyPlain(j: string)
    ensures !Contains(DataKey(j), ExpirationSuffix)
  {
    BeforeFirstLacks(j, ExpirationSuffix);
  }

  /** A key not yet visited looks stale in the swept storage exactly when it did at the start. */
  lemma UnvisitedStale(storage: map<string, string>, now: int, visited: set<string>, k: string)
    requires k !in visited
    ensures StaleEntry(storage - Swept(storage, now, visited), k, now) <==> StaleEntry(storage, k, now)
  {
    if StaleEntry(storage, k, now) && k in Swept(storage, now, visited) {
      var j :| j in visited && StaleEntry(storage, j, now) && (k == j || k == DataKey(j));
      DataKeyPlain(j);
    }
  }

  /** The keys one step of the sweep removes for the key `k`. */
  function StaleKeys(storage: map<string, string>, k: string, now: int): set<string>
  {
    if StaleEntry(storage, k, now) then {k, DataKey(k)} else {}
  }

  /** One step of the sweep, as the loop takes it: the key is judged by the storage swept so far. */
  lemma SweepOne(storage: map<string, string>, now: int, visited: set<string>, k: string)
    requires k !in visited
    ensures Swept(storage, now, visited + {k}) == Swept(storage, now, visited)
      + StaleKeys(storage - Swept(storage, now, visited), k, now)
  {
    UnvisitedStale(storage, now, visited, k);
    SweptStep(storage, now, visited, k);
  }

  /** What `clearExpiredCache` leaves: the storage without the stale entries. */
  function SweepExpired(storage: map<string, string>, now: int): map<string, string>
  {
    storage - Swept(storage, now, storage.Keys)
  }

  /** Sweeping twice removes nothing more: no stale expiration key is left. */
  lemma SweepIdempotent(storage: map<string, string>, now: int)
    ensures SweepExpired(SweepExpired(storage, now), now) == SweepExpired(storage, now)
  {
    var r := SweepExpired(storage, now);
    forall k | k in r
      ensures !StaleEntry(r, k, now)
    {
      assert r[k] == storage[k];
    }
    assert Swept(r, now, r.Keys) == {};
  }

  /** A swept entry written by `run` loses both its data and its expiration time. */
  lemma SweptEntryGone(storage: map<string, string>, now: int, text: string)
    requires StaleEntry(storage, HashKey(text) + ExpirationSuffix, now)
    ensures HashKey(text) !in SweepExpired(storage, now)
    ensures HashKey(text) + ExpirationSuffix !in SweepExpired(storage, now)
  {
    EntryKeys(text);
  }

  /** A cache entry whose expiration time is still ahead survives the sweep with its time. */
  lemma FreshEntryKept(storage: map<string, string>, now: int, text: string)
    requires HashKey(text) + ExpirationSuffix in storage
    requires NumberText(storage[HashKey(text) + ExpirationSuffix]).Some?
    requires NumberText(storage[HashKey(text) + ExpirationSuffix]).value >= now
    ensures var k := HashKey(text) + ExpirationSuffix;
      k in SweepExpired(storage, now) && SweepExpired(storage, now)[k] == storage[k]
  {
    var k := HashKey(text) + ExpirationSuffix;
    if k in Swept(storage, now, storage.Keys) {
      var j :| j in storage && StaleEntry(storage, j, now) && (k == j || k == DataKey(j));
      EntryKeys(text);
      DataKeyPlain(j);
    }
  }

  // ---------------------------------------------------------------------
  // A request

  /** How the promise of a request settles. */
  datatype Settlement = Fulfilled(value: JsValue) | Rejected(reason: JsValue)

  /**
   * What one call of `run` does: the promise it returns (or the error it
   * throws), whether it called the API, and the storage and request pool
   * it leaves.
   */
  datatype RunResult = RunResult(
    outcome: Outcome<Settlement, ParseError>,
    called: bool,
    storage: map<string, string>,
    pool: map<string, Settlement>)

  /**
   * The storage after `runAPICall` for an entry: its expiration time is
   * written first; when that fails nothing more is written; a fulfilled
   * answer is then stored, and when that fails the expiration time is
   * removed again. `fits` says which storage states the quota allows.
   */
  function AfterCall(storage: map<string, string>, key: string, expireTime: int, response: Settlement,
                     fits: map<string, string> -> bool): map<string, string>
  {
    var expirationKey := key + ExpirationSuffix;
    var timed := storage[expirationKey := PhpValues.IntText(expireTime)];
    if !fits(timed) || response.Rejected? then (if fits(timed) then timed else storage)
    else
      var stored := timed[key := StoredText(response.value)];
      if fits(stored) then stored else timed - {expirationKey}
  }

  /** What `removeLocalStorage` leaves as written: the entry and a key with a doubled underscore removed. */
  function WithoutDoubled(storage: map<string, string>, key: string): map<string, string>
  {
    storage - {key, key + "__expiration"}
  }

  /** As written, removing an entry leaves its expiration time behind. */
  lemma ExpirationKeySurvives(storage: map<string, string>, key: string)
    requires key + ExpirationSuffix in storage
    ensures key !in WithoutDoubled(storage, key)
    ensures key + ExpirationSuffix in WithoutDoubled(storage, key)
    ensures WithoutDoubled(storage, key)[key + ExpirationSuffix] == storage[key + ExpirationSuffix]
  {
    assert key + ExpirationSuffix != key + "__expiration" by {
      assert (key + ExpirationSuffix)[|key| + 1] == 'e';
      assert (key + "__expiration")[|key| + 1] == '_';
    }
    assert |key + ExpirationSuffix| != |key|;
  }

  /** The storage with an entry and its expiration time removed. */
  function WithoutEntry(storage: map<string, string>, key: string): (r: map<string, string>)
    ensures key !in r && key + ExpirationSuffix !in r
    ensures forall k :: k != key && k != key + ExpirationSuffix ==> (k in r <==> k in storage)
    ensures forall k :: k in r ==> r[k] == storage[k]
  {
    storage - {key, key + ExpirationSuffix}
  }

  /**
   * The end of `run`, once an expired entry is gone: a pooled promise is
   * returned as it is; stored data is read back (and pooled) without
   * calling the API; otherwise the API is called, its answer stored and
   * its promise pooled.
   */
  function Lookup(storage: map<string, string>, pool: map<string, Settlement>, fits: map<string, string> -> bool,
                  key: string, expireTime: int, response: Settlement, parse: string -> Option<JsValue>): RunResult
  {
    if key in pool then RunResult(Done(pool[key]), false, storage, pool)
    else if key in storage && storage[key] != "" then
      match GetLocalData(storage[key], parse)
      case Thrown(e) => RunResult(Thrown(e), false, storage, pool)
      case Done(v) => RunResult(Done(Fulfilled(v)), false, storage, pool[key := Fulfilled(v)])
    else
      RunResult(Done(response), true, AfterCall(storage, key, expireTime, response, fits), pool[key := response])
  }

  /**
   * `Reliquary.cache.run(apiCall, apiCallParams, expiration)` at the time
   * `now` (whole seconds), where calling the API settles as `response`.
   * Where storage is missing or cannot be written the API is called
   * directly; otherwise an expired entry is first removed with its
   * expiration time (see `RemoveEntry`) and dropped from the pool.
   */
  function RunSpec(storage: map<string, string>, pool: map<string, Settlement>, enabled: bool,
                   fits: map<string, string> -> bool, apiCall: JsValue, params: JsValue, expiration: JsValue,
                   now: int, response: Settlement, parse: string -> Option<JsValue>): RunResult
    requires !Truthy(expiration) || expiration.JsNumber?
  {
    var key := RequestKey(apiCall, params, expiration);
    if !enabled || !fits(storage[TestKey := "1"]) then RunResult(Done(response), true, storage, pool)
    else
      var tested := storage[TestKey := "1"] - {TestKey};
      var expired := Expired(tested, key, now);
      Lookup(if expired then WithoutEntry(tested, key) else tested, if expired then pool - {key} else pool,
             fits, key, ExpireTime(now, expiration), response, parse)
  }

  /** An expiration time written by the cache is read back: the entry is expired exactly once `now` passes it. */
  lemma ExpiredAfter(storage: map<string, string>, key: string, time: int, now: int)
    requires key + ExpirationSuffix in storage
    requires storage[key + ExpirationSuffix] == PhpValues.IntText(time)
    ensures Expired(storage, key, now) <==> now > time
  {
    NumberTextOfInt(time);
  }

  /** A call whose writes fit leaves the answer and its expiration time in storage. */
  lemma CallStores(storage: map<string, string>, key: string, expireTime: int, v: JsValue,
                   fits: map<string, string> -> bool)
    requires var timed := storage[key + ExpirationSuffix := PhpValues.IntText(expireTime)];
      fits(timed) && fits(timed[key := StoredText(v)])
    ensures var after := AfterCall(storage, key, expireTime, Fulfilled(v), fits);
      && key in after && after[key] == StoredText(v)
      && key + ExpirationSuffix in after && after[key + ExpirationSuffix] == PhpValues.IntText(expireTime)
  {
    assert key != key + ExpirationSuffix by {
      assert |key| < |key + ExpirationSuffix|;
    }
  }

  /** A call whose answer cannot be stored leaves no expiration time behind. */
  lemma CallUnstored(storage: map<string, string>, key: string, expireTime: int, v: JsValue,
                     fits: map<string, string> -> bool)
    requires var timed := storage[key + ExpirationSuffix := PhpValues.IntText(expireTime)];
      fits(timed) && !fits(timed[key := StoredText(v)])
    ensures key + ExpirationSuffix !in AfterCall(storage, key, expireTime, Fulfilled(v), fits)
  {
  }

  /** Every promise `run` returns on usable storage is left in the pool under the request's key. */
  lemma RunPools(storage: map<string, string>, pool: map<string, Settlement>, fits: map<string, string> -> bool,
                 apiCall: JsValue, params: JsValue, expiration: JsValue, now: int, response: Settlement,
                 parse: string -> Option<JsValue>)
    requires !Truthy(expiration) || expiration.JsNumber?
    requires fits(storage[TestKey := "1"])
    ensures var r := RunSpec(storage, pool, true, fits, apiCall, params, expiration, now, response, parse);
      var key := RequestKey(apiCall, params, expiration);
      r.outcome.Done? ==> key in r.pool && r.pool[key] == r.outcome.value
  {
  }

  /** While its entry has not expired, a pooled promise is returned again without calling the API or writing storage. */
  lemma PooledAnswer(storage: map<string, string>, pool: map<string, Settlement>, fits: map<string, string> -> bool,
                     apiCall: JsValue, params: JsValue, expiration: JsValue, now: int, response: Settlement,
                     parse: string -> Option<JsValue>)
    requires !Truthy(expiration) || expiration.JsNumber?
    requires fits(storage[TestKey := "1"])
    requires RequestKey(apiCall, params, expiration) in pool
    requires !Expired(storage[TestKey := "1"] - {TestKey}, RequestKey(apiCall, params, expiration), now)
    ensures var r := RunSpec(storage, pool, true, fits, apiCall, params, expiration, now, response, parse);
      && r.outcome == Done(pool[RequestKey(apiCall, params, expiration)])
      && !r.called && r.pool == pool && r.storage == storage[TestKey := "1"] - {TestKey}
  {
  }

  /** Two runs of the same request before it expires share one promise, and the second does not call the API. */
  lemma SecondRunPooled(storage: map<string, string>, pool: map<string, Settlement>, fits: map<string, string> -> bool,
                        apiCall: JsValue, params: JsValue, expiration: JsValue, now: int, later: int,
                        response: Settlement, again: Settlement, parse: string -> Option<JsValue>)
    requires !Truthy(expiration) || expiration.JsNumber?
    requires fits(storage[TestKey := "1"])
    requires var first := RunSpec(storage, pool, true, fits, apiCall, params, expiration, now, response, parse);
      && first.outcome.Done?
      && fits(first.storage[TestKey := "1"])
      && !Expired(first.storage[TestKey := "1"] - {TestKey}, RequestKey(apiCall, params, expiration), later)
    ensures var first := RunSpec(storage, pool, true, fits, apiCall, params, expiration, now, response, parse);
      var second := RunSpec(first.storage, first.pool, true, fits, apiCall, params, expiration, later, again, parse);
      second.outcome == first.outcome && !second.called
  {
    RunPools(storage, pool, fits, apiCall, params, expiration, now, response, parse);
    var first := RunSpec(storage, pool, true, fits, apiCall, params, expiration, now, response, parse);
    PooledAnswer(first.storage, first.pool, fits, apiCall, params, expiration, later, again, parse);
  }

  /** An expired entry is neither taken from the pool nor read from storage: the API is called again. */
  lemma ExpiredRefetched(storage: map<string, string>, pool: map<string, Settlement>, fits: map<string, string> -> bool,
                         apiCall: JsValue, params: JsValue, expiration: JsValue, now: int, response: Settlement,
                         parse: string -> Option<JsValue>)
    requires !Truthy(expiration) || expiration.JsNumber?
    requires fits(storage[TestKey := "1"])
    requires Expired(storage[TestKey := "1"] - {TestKey}, RequestKey(apiCall, params, expiration), now)
    ensures var r := RunSpec(storage, pool, true, fits, apiCall, params, expiration, now, response, parse);
      r.outcome == Done(response) && r.called
  {
  }

  /** On a fresh page, an entry in storage that has not expired is read back instead of calling the API. */
  lemma StoredServed(storage: map<string, string>, fits: map<string, string> -> bool,
                     apiCall: JsValue, params: JsValue, expiration: JsValue, now: int, response: Settlement,
                     parse: string -> Option<JsValue>)
    requires !Truthy(expiration) || expiration.JsNumber?
    requires fits(storage[TestKey := "1"])
    requires var tested := storage[TestKey := "1"] - {TestKey};
      var key := RequestKey(apiCall, params, expiration);
      !Expired(tested, key, now) && key in tested && tested[key] != ""
    ensures var tested := storage[TestKey := "1"] - {TestKey};
      var key := RequestKey(apiCall, params, expiration);
      var r := RunSpec(storage, map[], true, fits, apiCall, params, expiration, now, response, parse);
      && !r.called
      && r.outcome == match GetLocalData(tested[key], parse)
        case Done(v) => Done(Fulfilled(v))
        case Thrown(e) => Thrown(e)
  {
  }

  /** `run` writes and removes only keys holding the cache's mark, besides the storage test's key. */
  lemma RunTouchesOnlyCache(storage: map<string, string>, pool: map<string, Settlement>, enabled: bool,
                            fits: map<string, string> -> bool, apiCall: JsValue, params: JsValue,
                            expiration: JsValue, now: int, response: Settlement, parse: string -> Option<JsValue>,
                            k: string)
    requires !Truthy(expiration) || expiration.JsNumber?
    requires k != TestKey && !Contains(k, CacheMark)
    ensures var r := RunSpec(storage, pool, enabled, fits, apiCall, params, expiration, now, response, parse);
      (k in r.storage <==> k in storage) && (k in storage ==> r.storage[k] == storage[k])
  {
    var key := RequestKey(apiCall, params, expiration);
    EntryKeys(RequestText(apiCall, params, expiration));
    assert k != key && k != key + ExpirationSuffix;
    if enabled && fits(storage[TestKey := "1"]) {
      var tested := storage[TestKey := "1"] - {TestKey};
      var expired := Expired(tested, key, now);
      var current := if expired then WithoutEntry(tested, key) else tested;
      var pooled := if expired then pool - {key} else pool;
      assert (k in current <==> k in storage) && (k in storage ==> current[k] == storage[k]);
      LookupTouches(current, pooled, fits, key, ExpireTime(now, expiration), response, parse, k);
      assert RunSpec(storage, pool, enabled, fits, apiCall, params, expiration, now, response, parse)
        == Lookup(current, pooled, fits, key, ExpireTime(now, expiration), response, parse);
    }
  }

  /** The end of `run` writes and removes only the entry's two keys. */
  lemma LookupTouches(storage: map<string, string>, pool: map<string, Settlement>, fits: map<string, string> -> bool,
                      key: string, expireTime: int, response: Settlement, parse: string -> Option<JsValue>, k: string)
    requires k != key && k != key + ExpirationSuffix
    ensures var r := Lookup(storage, pool, fits, key, expireTime, response, parse);
      (k in r.storage <==> k in storage) && (k in storage ==> r.storage[k] == storage[k])
  {
  }

  /**
   * The browser's `localStorage` and the request pool of
   * `Reliquary.cache`. `enabled` says whether the browser offers local
   * and session storage; `fits` whether the quota allows a storage state
   * (a write that does not fit throws and changes nothing).
   */
  class CacheStore {
    var storage: map<string, string>
    var pool: map<string, Settlement>
    const enabled: bool
    const fits: map<string, string> -> bool

    /** A page load: the stored entries are kept, the request pool starts empty. */
    constructor(stored: map<string, string>, enabled: bool, fits: map<string, string> -> bool)
      ensures storage == stored && pool == map[]
      ensures this.enabled == enabled && this.fits == fits
    {
      storage := stored;
      pool := map[];
      this.enabled := enabled;
      this.fits := fits;
    }

    /** `localStorage.setItem(key, value)`; `ok` is false where it throws. */
    method SetItem(key: string, value: string) returns (ok: bool)
      modifies this
      ensures ok == fits(old(storage)[key := value])
      ensures storage == if ok then old(storage)[key := value] else old(storage)
      ensures pool == old(pool)
    {
      ok := fits(storage[key := value]);
      if ok {
        storage := storage[key := value];
      }
    }

    /** `localStorage.removeItem(key)`. */
    method RemoveItem(key: string)
      modifies this
      ensures storage == old(storage) - {key}
      ensures pool == old(pool)
    {
      storage := storage - {key};
    }

    /** `runAPICall` once the call has settled as `response`. */
    method RunAPICall(key: string, expireTime: int, response: Settlement)
      modifies this
      ensures storage == AfterCall(old(storage), key, expireTime, response, fits)
      ensures pool == old(pool)
    {
      var expirationKey := key + ExpirationSuffix;
      var timed := SetItem(expirationKey, PhpValues.IntText(expireTime));
      if timed && response.Fulfilled? {
        var stored := SetItem(key, StoredText(response.value));
        if !stored {
          RemoveItem(expirationKey);
        }
      }
    }

    /** `removeLocalStorage(hash)` as written: the second key has a doubled underscore. */
    method RemoveLocalStorage(hash: string)
      modifies this
      ensures storage == WithoutDoubled(old(storage), hash)
      ensures pool == old(pool)
    {
      RemoveItem(hash);
      RemoveItem(hash + "__expiration");
    }

    /** `removeLocalStorage(hash)` as its comment describes it: the entry and its expiration time. */
    method RemoveEntry(hash: string)
      modifies this
      ensures storage == WithoutEntry(old(storage), hash)
      ensures hash !in storage && hash + ExpirationSuffix !in storage
      ensures pool == old(pool)
    {
      RemoveItem(hash);
      RemoveItem(hash + ExpirationSuffix);
    }

    /** `Reliquary.cache.run`, with the API's answer and the clock as parameters. */
    method Run(apiCall: JsValue, params: JsValue, expiration: JsValue, now: int, response: Settlement,
               parse: string -> Option<JsValue>) returns (r: Outcome<Settlement, ParseError>, called: bool)
      requires !Truthy(expiration) || expiration.JsNumber?
      modifies this
      ensures RunResult(r, called, storage, pool)
        == RunSpec(old(storage), old(pool), enabled, fits, apiCall, params, expiration, now, response, parse)
    {
      var expireTime := ExpireTime(now, expiration);
      var key := HashString(RequestText(apiCall, params, expiration));
      if !enabled {
        return Done(response), true;
      }
      var writable := SetItem(TestKey, "1");
      if !writable {
        return Done(response), true;
      }
      RemoveItem(TestKey);
      if Expired(storage, key, now) {
        RemoveEntry(key);
        pool := pool - {key};
      }
      r, called := Fetch(key, expireTime, response, parse);
    }

    /** The end of `run`: the pooled promise, the stored data, or a call of the API. */
    method Fetch(key: string, expireTime: int, response: Settlement, parse: string -> Option<JsValue>)
      returns (r: Outcome<Settlement, ParseError>, called: bool)
      modifies this
      ensures RunResult(r, called, storage, pool) == Lookup(old(storage), old(pool), fits, key, expireTime, response, parse)
    {
      if key in pool {
        return Done(pool[key]), false;
      }
      if key in storage && storage[key] != "" {
        var data := GetLocalData(storage[key], parse);
        if data.Thrown? {
          return Thrown(data.error), false;
        }
        r, called := Done(Fulfilled(data.value)), false;
      } else {
        RunAPICall(key, expireTime, response);
        r, called := Done(response), true;
      }
      pool := pool[key := r.value];
    }

    /** The body of the loop in `clearExpiredCache`: a stale expiration key is removed with its data key. */
    method SweepKey(k: string, now: int)
      modifies this
      ensures storage == old(storage) - StaleKeys(old(storage), k, now)
      ensures pool == old(pool)
    {
      if k in storage && Contains(k, CacheMark) && Contains(k, ExpirationSuffix) {
        var expireTime := NumberText(storage[k]);
        if expireTime.Some? && expireTime.value < now {
          ghost var before := storage;
          RemoveItem(k);
          RemoveItem(DataKey(k));
          RemoveTwice(before, {k}, {DataKey(k)});
          assert {k} + {DataKey(k)} == StaleKeys(before, k, now);
          return;
        }
      }
      assert StaleKeys(storage, k, now) == {};
      assert storage - {} == storage;
    }

    /** The body of the loop in `clearCache`: a key holding the cache's mark is removed. */
    method ClearKey(k: string)
      modifies this
      ensures storage == old(storage) - MarkedOnly(k)
      ensures pool == old(pool)
    {
      if Contains(k, CacheMark) {
        RemoveItem(k);
      } else {
        assert storage - {} == storage;
      }
    }

    /** `Reliquary.cache.clearCache()`: every key holding the cache's mark is removed. */
    method ClearCache()
      modifies this
      ensures storage == old(storage) - CacheKeys(old(storage))
      ensures pool == old(pool)
    {
      var keys := storage.Keys;
      ghost var all := keys;
      ghost var visited: set<string> := {};
      while keys != {}
        invariant visited + keys == all && visited !! keys
        invariant storage == old(storage) - MarkedAmong(visited)
        invariant pool == old(pool)
        decreases keys
      {
        var k :| k in keys;
        ClearKey(k);
        MarkedStep(visited, k);
        RemoveTwice(old(storage), MarkedAmong(visited), MarkedOnly(k));
        keys := keys - {k};
        visited := visited + {k};
      }
      assert visited == all;
    }

    /** `Reliquary.cache.clearExpiredCache()` at the time `now`: every stale entry is removed. */
    method ClearExpiredCache(now: int)
      modifies this
      ensures storage == SweepExpired(old(storage), now)
      ensures pool == old(pool)
    {
      var keys := storage.Keys;
      ghost var all := keys;
      ghost var visited: set<string> := {};
      while keys != {}
        invariant visited + keys == all && visited !! keys
        invariant storage == old(storage) - Swept(old(storage), now, visited)
        invariant pool == old(pool)
        decreases keys
      {
        var k :| k in keys;
        SweepKey(k, now);
        SweepOne(old(storage), now, visited, k);
        RemoveTwice(old(storage), Swept(old(storage), now, visited), StaleKeys(old(storage) - Swept(old(storage), now, visited), k, now));
        keys := keys - {k};
        visited := visited + {k};
      }
      assert visited == all;
    }
  }
}
