/**
 * The JavaScript values the browser-side helpers handle, with the three
 * conversions they rely on: `String(v)`, `JSON.stringify(v)` and the
 * string methods `split` and `join`. Numbers are integers here.
 */
module JsValues {
  import opened Optional
  import PhpValues

  /**
   * A JavaScript value. An object's properties are listed in the order a
   * `for ... in` loop visits them; a function keeps its source text, which
   * is what `String` gives for it.
   */
  datatype JsValue =
    | JsUndefined
    | JsNull
    | JsBool(b: bool)
    | JsNumber(n: int)
    | JsString(s: string)
    | JsArray(items: seq<JsValue>)
    | JsObject(props: seq<(string, JsValue)>)
    | JsFunction(source: string)

  /** `typeof v == 'object'`: null, arrays and objects. */
  predicate IsObject(v: JsValue)
  {
    v.JsNull? || v.JsArray? || v.JsObject?
  }

  /** A value a condition takes as true. */
  predicate Truthy(v: JsValue)
  {
    match v
    case JsUndefined => false
    case JsNull => false
    case JsBool(b) => b
    case JsNumber(n) => n != 0
    case JsString(s) => s != ""
    case _ => true
  }

  // ---------------------------------------------------------------------
  // split and join

  /** `parts.join(sep)`. */
  function JoinWith(parts: seq<string>, sep: string): (r: string)
    ensures parts == [] ==> r == ""
  {
    if parts == [] then "" else if |parts| == 1 then parts[0] else parts[0] + sep + JoinWith(parts[1..], sep)
  }

  /** The index of the first `c` in `s`, or `|s|` when there is none. */
  function Find(s: string, c: char): (i: nat)
    ensures i <= |s| && c !in s[..i] && (i < |s| ==> s[i] == c)
  {
    if s == [] || s[0] == c then 0 else 1 + Find(s[1..], c)
  }

  /** `s.split(c)`: the pieces between the occurrences of `c`; at least one, the empty text giving `[""]`. */
  function Split(s: string, c: char): (r: seq<string>)
    ensures |r| >= 1
    ensures forall k :: 0 <= k < |r| ==> c !in r[k]
    decreases |s|
  {
    var i := Find(s, c);
    if i == |s| then
      assert s[..i] == s;
      [s]
    else [s[..i]] + Split(s[i + 1..], c)
  }

  /** Splitting on a separator no piece holds gives the pieces back. */
  lemma {:induction false} SplitJoin(parts: seq<string>, c: char)
    requires |parts| >= 1
    requires forall k :: 0 <= k < |parts| ==> c !in parts[k]
    ensures Split(JoinWith(parts, [c]), c) == parts
  {
    var s := JoinWith(parts, [c]);
    if |parts| == 1 {
      FindAbsent(s, c);
      assert s[..|s|] == s;
    } else {
      var p := parts[0];
      var rest := JoinWith(parts[1..], [c]);
      assert s == p + [c] + rest;
      FindFirst(p, c, rest);
      assert s[..|p|] == p;
      assert s[|p| + 1..] == rest;
      SplitJoin(parts[1..], c);
    }
  }

  lemma FindAbsent(s: string, c: char)
    requires c !in s
    ensures Find(s, c) == |s|
  {
  }

  lemma {:induction false} FindFirst(p: string, c: char, rest: string)
    requires c !in p
    ensures Find(p + [c] + rest, c) == |p|
  {
    if p != [] {
      assert (p + [c] + rest)[1..] == p[1..] + [c] + rest;
      FindFirst(p[1..], c, rest);
    }
  }

  // ---------------------------------------------------------------------
  // String(v)

  /** `String(v)`; an array's items joined with commas, undefined and null ones as empty text. */
  function ToText(v: JsValue): string
    decreases v, 1
  {
    match v
    case JsUndefined => "undefined"
    case JsNull => "null"
    case JsBool(b) => if b then "true" else "false"
    case JsNumber(n) => PhpValues.IntText(n)
    case JsString(s) => s
    case JsArray(items) =>
      JoinWith(seq(|items|, k requires 0 <= k < |items| => ItemText(items[k])), ",")
    case JsObject(_) => "[object Object]"
    case JsFunction(source) => source
  }

  /** An array item as `join` writes it. */
  function ItemText(v: JsValue): string
    decreases v, 2
  {
    if v.JsUndefined? || v.JsNull? then "" else ToText(v)
  }

  /** A string is its own text, and a number its decimal digits. */
  lemma ToTextPrimitive(s: string, n: int)
    ensures ToText(JsString(s)) == s
    ensures ToText(JsNumber(n)) == PhpValues.IntText(n)
  {
  }

  // ---------------------------------------------------------------------
  // JSON.stringify

  /** A lower-case hex digit. */
  function LowerHex(d: int): (c: char)
    requires 0 <= d < 16
  {
    if d < 10 then ('0' as int + d) as char else ('a' as int + d - 10) as char
  }

  /** One character inside a JSON string. */
  function EscapeChar(c: char): (r: string)
    ensures |r| >= 1
    ensures r[0] == '\\' <==> c as int < 0x20 || c == '"' || c == '\\'
    ensures r[0] != '\\' ==> r == [c]
  {
    if c as int == 0x08 then "\\b"
    else if c == '\t' then "\\t"
    else if c == '\n' then "\\n"
    else if c as int == 0x0C then "\\f"
    else if c == '\r' then "\\r"
    else if c == '"' then "\\\""
    else if c == '\\' then "\\\\"
    else if c as int < 0x20 then "\\u00" + [LowerHex(c as int / 16), LowerHex(c as int % 16)]
    else [c]
  }

  /** The characters of a text inside a JSON string. */
  function Escape(s: string): (r: string)
    ensures |r| >= |s|
  {
    if s == [] then "" else EscapeChar(s[0]) + Escape(s[1..])
  }

  /** The JSON string of a text. */
  function Quote(s: string): (r: string)
    ensures |r| >= 2 && r[0] == '"'
  {
    "\"" + Escape(s) + "\""
  }

  /**
   * `JSON.stringify(v)`, or `None` where it gives `undefined` (for
   * `undefined` and functions). Arrays write those as `null`; objects
   * leave out the properties that hold them.
   */
  function Stringify(v: JsValue): (r: Option<string>)
    ensures r.None? <==> v.JsUndefined? || v.JsFunction?
    decreases v, 1
  {
    match v
    case JsUndefined => None
    case JsNull => Some("null")
    case JsBool(b) => Some(if b then "true" else "false")
    case JsNumber(n) => Some(PhpValues.IntText(n))
    case JsString(s) => Some(Quote(s))
    case JsArray(items) =>
      Some("[" + JoinWith(seq(|items|, k requires 0 <= k < |items| => ItemJson(items[k])), ",") + "]")
    case JsObject(props) =>
      Some("{" + JoinWith(Present(seq(|props|, k requires 0 <= k < |props| => MemberJson(props[k].0, props[k].1))), ",") + "}")
    case JsFunction(_) => None
  }

  /** An array item in JSON. */
  function ItemJson(v: JsValue): string
    decreases v, 2
  {
    var t := Stringify(v);
    if t.Some? then t.value else "null"
  }

  /** A property in JSON, when its value has one. */
  function MemberJson(name: string, v: JsValue): Option<string>
    decreases v, 2
  {
    var t := Stringify(v);
    if t.Some? then Some(Quote(name) + ":" + t.value) else None
  }

  /** The present entries, in order. */
  function Present(parts: seq<Option<string>>): (r: seq<string>)
    ensures |r| <= |parts|
  {
    if parts == [] then []
    else if parts[0].Some? then [parts[0].value] + Present(parts[1..])
    else Present(parts[1..])
  }

  // ---------------------------------------------------------------------
  // A JSON string determines its text

  /** The first escape determines the character. */
  lemma EscapeCharPrefix(x: char, y: char, s: string, t: string)
    requires EscapeChar(x) + s == EscapeChar(y) + t
    ensures x == y && s == t
  {
    var ex, ey := EscapeChar(x), EscapeChar(y);
    assert ex[0] == (ex + s)[0] == (ey + t)[0] == ey[0];
    if ex[0] == '\\' {
      assert |ex| >= 2 && |ey| >= 2;
      assert ex[1] == (ex + s)[1] == (ey + t)[1] == ey[1];
      if ex[1] == 'u' {
        assert |ex| == 6 && |ey| == 6;
        assert ex[4] == (ex + s)[4] == (ey + t)[4] == ey[4];
        assert ex[5] == (ex + s)[5] == (ey + t)[5] == ey[5];
        LowerHexInjective(x as int / 16, y as int / 16);
        LowerHexInjective(x as int % 16, y as int % 16);
      }
    }
    assert |ex| == |ey|;
    assert s == (ex + s)[|ex|..] == (ey + t)[|ey|..] == t;
  }

  lemma LowerHexInjective(a: int, b: int)
    requires 0 <= a < 16 && 0 <= b < 16 && LowerHex(a) == LowerHex(b)
    ensures a == b
  {
  }

  /** An escaped non-empty text never starts with the closing quote. */
  lemma QuoteFirst(b: string, t: string, s: string)
    requires b != []
    ensures Escape(b) + "\"" + t != "\"" + s
  {
    assert (Escape(b) + "\"" + t)[0] == EscapeChar(b[0])[0];
  }

  lemma EscapeCons(a: string, s: string)
    requires a != []
    ensures Escape(a) + "\"" + s == EscapeChar(a[0]) + (Escape(a[1..]) + "\"" + s)
  {
  }

  /** The escaped text ends at the first unescaped quote, so what follows is fixed too. */
  lemma {:induction false} EscapeInjective(a: string, b: string, s: string, t: string)
    requires Escape(a) + "\"" + s == Escape(b) + "\"" + t
    ensures a == b && s == t
    decreases |a|
  {
    if a == [] && b == [] {
      assert Escape(a) + "\"" + s == "\"" + s;
      assert Escape(b) + "\"" + t == "\"" + t;
      assert s == ("\"" + s)[1..] == ("\"" + t)[1..] == t;
    } else if a == [] {
      assert Escape(a) + "\"" + s == "\"" + s;
      QuoteFirst(b, t, s);
    } else if b == [] {
      assert Escape(b) + "\"" + t == "\"" + t;
      QuoteFirst(a, s, t);
    } else {
      EscapeCons(a, s);
      EscapeCons(b, t);
      EscapeCharPrefix(a[0], b[0], Escape(a[1..]) + "\"" + s, Escape(b[1..]) + "\"" + t);
      EscapeInjective(a[1..], b[1..], s, t);
      assert a == [a[0]] + a[1..] && b == [b[0]] + b[1..];
    }
  }

  /** A JSON string followed by anything determines the text it quotes. */
  lemma QuoteInjective(a: string, b: string, s: string, t: string)
    requires Quote(a) + s == Quote(b) + t
    ensures a == b && s == t
  {
    assert Escape(a) + "\"" + s == (Quote(a) + s)[1..] == (Quote(b) + t)[1..] == Escape(b) + "\"" + t;
    EscapeInjective(a, b, s, t);
  }
}
