/**
 * The browser-side request helpers of the plugin (reliquary-api.js): search
 * parameters carried in the page URL as unpadded base 64 of their JSON,
 * query strings read and written with `encodeURIComponent`, nested objects
 * flattened into form fields named `a[b][c]`, and the URL of a plugin
 * action. The request itself, the promises and the history calls are
 * outside the model.
 */
module ReliquaryApi {
  import opened Optional
  import opened JsValues
  import PhpValues
  import Utf8
  import Base64
  import UriComponent

  // ---------------------------------------------------------------------
  // Search parameters in the URL

  /** What `btoa` receives: the JSON of the object, or "undefined" where `JSON.stringify` gives `undefined`. */
  function JsonText(obj: JsValue): string
  {
    var t := Stringify(obj);
    if t.Some? then t.value else "undefined"
  }

  /** `encodeSearchParams(obj)`: the base 64 of the JSON cut at its first `=`, or `None` where `btoa` throws. */
  function EncodeSearchParams(obj: JsValue): (r: Option<string>)
    ensures r.Some? <==> Base64.Latin1(JsonText(obj))
    ensures r.Some? ==> '=' !in r.value
  {
    var b := Base64.Btoa(JsonText(obj));
    if b.None? then None
    else
      Base64.UnpaddedHasNoPadding(Base64.Bytes(JsonText(obj)));
      Some(Base64.CutAtPadding(b.value))
  }

  /** `JSON.parse(text)`, with a failure as null. */
  function Parsed(parse: string -> Option<JsValue>, text: string): JsValue
  {
    var v := parse(text);
    if v.Some? then v.value else JsNull
  }

  /** `decodeSearchParams(str)`: null where `atob` or `JSON.parse` throws. */
  function DecodeSearchParams(str: JsValue, parse: string -> Option<JsValue>): JsValue
  {
    var data := Base64.Atob(ToText(str));
    if data.None? then JsNull else Parsed(parse, data.value)
  }

  /** Decoding an encoded object parses its JSON again: the base 64 step loses nothing. */
  lemma DecodeEncodeSearchParams(obj: JsValue, parse: string -> Option<JsValue>)
    requires Base64.Latin1(JsonText(obj))
    ensures EncodeSearchParams(obj).Some?
    ensures DecodeSearchParams(JsString(EncodeSearchParams(obj).value), parse) == Parsed(parse, JsonText(obj))
  {
    Base64.AtobBtoa(JsonText(obj));
  }

  /** A search for "€" cannot be encoded: its JSON holds a character above U+00FF. */
  lemma WideSearchThrows()
    ensures EncodeSearchParams(JsObject([("q", JsString("€"))])) == None
  {
    var v := JsString("€");
    assert Escape("€") == EscapeChar('€') + Escape("");
    assert '€' in Quote("€");
    assert MemberJson("q", v) == Some(Quote("q") + ":" + Quote("€"));
    var parts := seq(1, k requires 0 <= k < 1 => MemberJson([("q", v)][k].0, [("q", v)][k].1));
    assert parts == [MemberJson("q", v)];
    assert Present(parts) == [Quote("q") + ":" + Quote("€")];
    var t := JsonText(JsObject([("q", v)]));
    assert t == "{" + (Quote("q") + ":" + Quote("€")) + "}";
    assert '€' in t;
  }

  /**
   * The search parameters encoded as UTF-8 before base 64, so that every
   * object can be carried; the padding is cut as before.
   */
  function EncodeSearchParamsUtf8(obj: JsValue): (r: string)
    ensures '=' !in r
  {
    Base64.UnpaddedHasNoPadding(Utf8.Encode(JsonText(obj)));
    Base64.CutAtPadding(Base64.Encode(Utf8.Encode(JsonText(obj))))
  }

  /** The matching decode: base 64, then UTF-8, then JSON; null where any step fails. */
  function DecodeSearchParamsUtf8(str: JsValue, parse: string -> Option<JsValue>): JsValue
  {
    var bytes := Base64.Decode(ToText(str));
    if bytes.None? then JsNull
    else
      var text := Utf8.Decode(bytes.value);
      if text.None? then JsNull else Parsed(parse, text.value)
  }

  /** Every object survives the corrected encoding. */
  lemma DecodeEncodeSearchParamsUtf8(obj: JsValue, parse: string -> Option<JsValue>)
    ensures DecodeSearchParamsUtf8(JsString(EncodeSearchParamsUtf8(obj)), parse) == Parsed(parse, JsonText(obj))
  {
    var b := Utf8.Encode(JsonText(obj));
    Base64.CutEncode(b);
    Base64.DecodeUnpadded(b);
    Utf8.DecodeEncode(JsonText(obj));
  }

  /** Where the JSON is seven-bit, the corrected encoding writes what the original writes. */
  lemma Utf8EncodingAgreesOnAscii(obj: JsValue)
    requires forall k :: 0 <= k < |JsonText(obj)| ==> JsonText(obj)[k] as int < 0x80
    ensures EncodeSearchParams(obj) == Some(EncodeSearchParamsUtf8(obj))
  {
    var t := JsonText(obj);
    Utf8.AsciiBytes(t);
    assert Utf8.Encode(t) == Base64.Bytes(t);
  }

  // ---------------------------------------------------------------------
  // Query strings

  /** A form field: a name and the value it carries. */
  datatype Field = Field(name: string, value: JsValue)

  /** `encodeURIComponent(name) + '=' + encodeURIComponent(value)`. */
  function FieldText(f: Field): string
  {
    UriComponent.Encode(f.name) + "=" + UriComponent.Encode(ToText(f.value))
  }

  function FieldTexts(fields: seq<Field>): (r: seq<string>)
    ensures |r| == |fields| && forall k :: 0 <= k < |fields| ==> r[k] == FieldText(fields[k])
  {
    seq(|fields|, k requires 0 <= k < |fields| => FieldText(fields[k]))
  }

  lemma FieldTextsSnoc(fields: seq<Field>, i: nat)
    requires i < |fields|
    ensures FieldTexts(fields[..i + 1]) == FieldTexts(fields[..i]) + [FieldText(fields[i])]
  {
  }

  /** The query string of some fields, in order, joined by `&`. */
  function Serialized(fields: seq<Field>): string
  {
    JoinWith(FieldTexts(fields), "&")
  }

  /** `serializeObject(arr)`. */
  method SerializeObject(arr: seq<Field>) returns (r: string)
    ensures r == Serialized(arr)
  {
    var elements: seq<string> := [];
    for i := 0 to |arr|
      invariant elements == FieldTexts(arr[..i])
    {
      FieldTextsSnoc(arr, i);
      elements := elements + [FieldText(arr[i])];
    }
    assert arr[..|arr|] == arr;
    r := JoinWith(elements, "&");
  }

  /** The properties of an object as fields. */
  function PropFields(props: seq<(string, JsValue)>): (r: seq<Field>)
    ensures |r| == |props| && forall k :: 0 <= k < |props| ==> r[k] == Field(props[k].0, props[k].1)
  {
    seq(|props|, k requires 0 <= k < |props| => Field(props[k].0, props[k].1))
  }

  /** `createQueryStringFromData(obj)` over the object's properties in `for ... in` order. */
  method CreateQueryStringFromData(props: seq<(string, JsValue)>) returns (r: string)
    ensures r == Serialized(PropFields(props))
    ensures props == [] ==> r == ""
  {
    var data: seq<string> := [];
    for i := 0 to |props|
      invariant data == FieldTexts(PropFields(props[..i]))
    {
      assert PropFields(props[..i + 1]) == PropFields(props[..i]) + [Field(props[i].0, props[i].1)];
      FieldTextsSnoc(PropFields(props[..i + 1]), i);
      data := data + [UriComponent.Encode(props[i].0) + "=" + UriComponent.Encode(ToText(props[i].1))];
    }
    assert props[..|props|] == props;
    r := JoinWith(data, "&");
  }

  // ---------------------------------------------------------------------
  // Nested objects as form fields

  /** The name of a property inside `prefix`: the bare key at the top, `prefix[key]` below. */
  function FieldName(prefix: string, key: string): string
  {
    if prefix == "" then key else prefix + "[" + key + "]"
  }

  predicate HasPrefix(s: string, p: string)
  {
    |p| <= |s| && s[..|p|] == p
  }

  /** Every field carries a plain value. */
  predicate AllLeaves(fields: seq<Field>)
  {
    forall k :: 0 <= k < |fields| ==> !IsObject(fields[k].value)
  }

  /** Every field's name starts with `p`. */
  predicate AllPrefixed(fields: seq<Field>, p: string)
  {
    forall k :: 0 <= k < |fields| ==> HasPrefix(fields[k].name, p)
  }

  function ConcatAll(parts: seq<seq<Field>>): seq<Field>
  {
    if parts == [] then [] else parts[0] + ConcatAll(parts[1..])
  }

  lemma {:induction false} ConcatAllKeeps(parts: seq<seq<Field>>, p: string)
    requires forall i :: 0 <= i < |parts| ==> AllLeaves(parts[i]) && AllPrefixed(parts[i], p)
    ensures AllLeaves(ConcatAll(parts)) && AllPrefixed(ConcatAll(parts), p)
  {
    if parts != [] {
      ConcatAllKeeps(parts[1..], p);
    }
  }

  /** A name under `prefix[key]` is also under `prefix`. */
  lemma PrefixedWithin(fields: seq<Field>, p: string, key: string)
    requires p != "" && AllPrefixed(fields, FieldName(p, key))
    ensures AllPrefixed(fields, p)
  {
    var q := FieldName(p, key);
    forall k | 0 <= k < |fields|
      ensures HasPrefix(fields[k].name, p)
    {
      assert fields[k].name[..|p|] == fields[k].name[..|q|][..|p|];
    }
  }

  /** The `for ... in` keys of an array: its indices as text. */
  function IndexKey(k: nat): string
  {
    PhpValues.IntText(k)
  }

  /**
   * `encodeObject(obj, prefix)`: the plain values inside an object, each
   * with the name of its path. Arrays are walked like objects, by index,
   * since `typeof` never gives 'array'; null gives no field; a plain value
   * is one field named `prefix`.
   */
  function Flatten(v: JsValue, prefix: string): (r: seq<Field>)
    ensures AllLeaves(r)
    ensures prefix != "" ==> AllPrefixed(r, prefix)
    decreases v
  {
    match v
    case JsNull => []
    case JsArray(items) =>
      var parts := seq(|items|, k requires 0 <= k < |items| => Flatten(items[k], FieldName(prefix, IndexKey(k))));
      FlattenParts(parts, prefix, seq(|items|, k requires 0 <= k < |items| => IndexKey(k)));
      ConcatAll(parts)
    case JsObject(props) =>
      var parts := seq(|props|, k requires 0 <= k < |props| => Flatten(props[k].1, FieldName(prefix, props[k].0)));
      FlattenParts(parts, prefix, seq(|props|, k requires 0 <= k < |props| => props[k].0));
      ConcatAll(parts)
    case _ => [Field(prefix, v)]
  }

  /** The fields of each property, gathered. */
  lemma FlattenParts(parts: seq<seq<Field>>, prefix: string, keys: seq<string>)
    requires |keys| == |parts|
    requires forall i :: 0 <= i < |parts| ==> AllLeaves(parts[i])
    requires forall i :: 0 <= i < |parts| ==> FieldName(prefix, keys[i]) != "" ==> AllPrefixed(parts[i], FieldName(prefix, keys[i]))
    ensures AllLeaves(ConcatAll(parts))
    ensures prefix != "" ==> AllPrefixed(ConcatAll(parts), prefix)
  {
    if prefix != "" {
      forall i | 0 <= i < |parts|
        ensures AllPrefixed(parts[i], prefix)
      {
        PrefixedWithin(parts[i], prefix, keys[i]);
      }
      ConcatAllKeeps(parts, prefix);
    } else {
      ConcatAllKeeps(parts, "");
    }
  }

  /** An array gives the fields of the object keyed by its indices. */
  lemma ArrayAsObject(items: seq<JsValue>, prefix: string)
    ensures Flatten(JsArray(items), prefix)
         == Flatten(JsObject(seq(|items|, k requires 0 <= k < |items| => (IndexKey(k), items[k]))), prefix)
  {
    var props := seq(|items|, k requires 0 <= k < |items| => (IndexKey(k), items[k]));
    assert seq(|items|, k requires 0 <= k < |items| => Flatten(items[k], FieldName(prefix, IndexKey(k))))
        == seq(|props|, k requires 0 <= k < |props| => Flatten(props[k].1, FieldName(prefix, props[k].0)));
  }

  /** An object of plain values gives one field per property, named by its bare key. */
  lemma FlatObject(props: seq<(string, JsValue)>)
    requires forall k :: 0 <= k < |props| ==> !IsObject(props[k].1)
    ensures Flatten(JsObject(props), "") == PropFields(props)
  {
    var parts := seq(|props|, k requires 0 <= k < |props| => Flatten(props[k].1, FieldName("", props[k].0)));
    assert forall k :: 0 <= k < |props| ==> parts[k] == [Field(props[k].0, props[k].1)];
    ConcatAllSingles(parts, PropFields(props));
  }

  lemma {:induction false} ConcatAllSingles(parts: seq<seq<Field>>, fields: seq<Field>)
    requires |parts| == |fields| && forall k :: 0 <= k < |parts| ==> parts[k] == [fields[k]]
    ensures ConcatAll(parts) == fields
  {
    if parts != [] {
      ConcatAllSingles(parts[1..], fields[1..]);
      assert fields == [fields[0]] + fields[1..];
    }
  }

  /** `encodeObject(obj, prefix)`: a property at a time, each one's fields appended. */
  method EncodeObject(obj: JsValue, prefix: string) returns (arr: seq<Field>)
    ensures arr == Flatten(obj, prefix)
    decreases obj
  {
    arr := [];
    match obj
    case JsNull =>
    case JsArray(items) =>
      ghost var parts := seq(|items|, k requires 0 <= k < |items| => Flatten(items[k], FieldName(prefix, IndexKey(k))));
      for i := 0 to |items|
        invariant arr == ConcatAll(parts[..i])
      {
        var more := EncodeObject(items[i], FieldName(prefix, IndexKey(i)));
        ConcatAllSnoc(parts, i);
        arr := arr + more;
      }
      assert parts[..|items|] == parts;
    case JsObject(props) =>
      ghost var parts := seq(|props|, k requires 0 <= k < |props| => Flatten(props[k].1, FieldName(prefix, props[k].0)));
      for i := 0 to |props|
        invariant arr == ConcatAll(parts[..i])
      {
        assert props[i].1 < obj by {
          assert props[i] in props;
        }
        var more := EncodeObject(props[i].1, FieldName(prefix, props[i].0));
        ConcatAllSnoc(parts, i);
        arr := arr + more;
      }
      assert parts[..|props|] == parts;
    case _ =>
      arr := [Field(prefix, obj)];
  }

  lemma {:induction false} ConcatAllSnoc(parts: seq<seq<Field>>, i: nat)
    requires i < |parts|
    ensures ConcatAll(parts[..i + 1]) == ConcatAll(parts[..i]) + parts[i]
    decreases i
  {
    if i > 0 {
      assert parts[..i + 1][1..] == parts[1..][..i];
      assert parts[..i][1..] == parts[1..][..i - 1];
      ConcatAllSnoc(parts[1..], i - 1);
    } else {
      assert parts[..1] == [parts[0]];
    }
  }

  // ---------------------------------------------------------------------
  // Reading a query string

  /** What the helpers throw: a broken escape, a call on a non-function, or a character `btoa` refuses. */
  datatype JsError = URIError | TypeError | InvalidCharacterError

  /**
   * The names a plain object inherits: looking one of them up finds a
   * function (or the prototype), which has no `push`.
   */
  const Inherited: set<string> := {
    "constructor", "hasOwnProperty", "isPrototypeOf", "propertyIsEnumerable", "toLocaleString",
    "toString", "valueOf", "__proto__", "__defineGetter__", "__defineSetter__", "__lookupGetter__", "__lookupSetter__"
  }

  /** The position of the first own property named `key`, or `|data|` when there is none. */
  function KeyIndex(data: seq<(string, JsValue)>, key: string): (i: nat)
    ensures i <= |data| && (i < |data| ==> data[i].0 == key)
    ensures forall k :: 0 <= k < i ==> data[k].0 != key
  {
    if data == [] then 0 else if data[0].0 == key then 0 else 1 + KeyIndex(data[1..], key)
  }

  /** `obj[key]` for an own property; undefined otherwise. */
  function Lookup(data: seq<(string, JsValue)>, key: string): JsValue
  {
    var i := KeyIndex(data, key);
    if i < |data| then data[i].1 else JsUndefined
  }

  /** No two properties share a name. */
  predicate DistinctKeys(data: seq<(string, JsValue)>)
  {
    forall i, j :: 0 <= i < j < |data| ==> data[i].0 != data[j].0
  }

  /** In an object without repeated names, each property is found under its name. */
  lemma LookupAt(data: seq<(string, JsValue)>, i: nat)
    requires DistinctKeys(data) && i < |data|
    ensures KeyIndex(data, data[i].0) == i && Lookup(data, data[i].0) == data[i].1
  {
  }

  /**
   * One `&`-separated segment read into the object built so far. An empty
   * segment is skipped. The key is the text before the first `=`, decoded
   * only when `decodeKeys`; the value is the text between the first and
   * the second `=`, or "undefined" without one, decoded. A first value is
   * stored as a string, a second turns it into a pair, later ones are
   * appended. The value is decoded before an inherited name fails.
   */
  function Step(data: seq<(string, JsValue)>, segment: string, decodeKeys: bool): Outcome<seq<(string, JsValue)>, JsError>
  {
    if segment == "" then Done(data)
    else
      var pair := Split(segment, '=');
      var key := if decodeKeys then UriComponent.Decode(pair[0]) else Some(pair[0]);
      var value := UriComponent.Decode(if |pair| >= 2 then pair[1] else "undefined");
      if key.None? || value.None? then Thrown(URIError)
      else
        var i := KeyIndex(data, key.value);
        if i == |data| then
          if key.value in Inherited then Thrown(TypeError) else Done(data + [(key.value, JsString(value.value))])
        else match data[i].1
          case JsString(first) => Done(data[i := (key.value, JsArray([JsString(first), JsString(value.value)]))])
          case JsArray(items) => Done(data[i := (key.value, JsArray(items + [JsString(value.value)]))])
          case _ => Thrown(TypeError)
  }

  /** The segments read in order from `data`; the first failure ends the reading. */
  function Steps(data: seq<(string, JsValue)>, segments: seq<string>, decodeKeys: bool): Outcome<seq<(string, JsValue)>, JsError>
    decreases |segments|
  {
    if segments == [] then Done(data)
    else
      var next := Step(data, segments[0], decodeKeys);
      if next.Thrown? then next else Steps(next.value, segments[1..], decodeKeys)
  }

  lemma StepsCons(data: seq<(string, JsValue)>, segments: seq<string>, decodeKeys: bool, next: seq<(string, JsValue)>)
    requires segments != [] && Step(data, segments[0], decodeKeys) == Done(next)
    ensures Steps(data, segments, decodeKeys) == Steps(next, segments[1..], decodeKeys)
  {
  }

  /** The object a query string gives: its properties in the order first seen. */
  function ParseQuery(query: string, decodeKeys: bool): Outcome<seq<(string, JsValue)>, JsError>
  {
    Steps([], Split(query, '&'), decodeKeys)
  }

  /** `getAllParametersFromQuery(query)`: the keys are taken as they stand. */
  method GetAllParametersFromQuery(query: string) returns (r: Outcome<seq<(string, JsValue)>, JsError>)
    ensures r == ParseQuery(query, false)
  {
    var search := Split(query, '&');
    var data: seq<(string, JsValue)> := [];
    var i := 0;
    while i < |search|
      invariant 0 <= i <= |search|
      invariant Steps(data, search[i..], false) == ParseQuery(query, false)
    {
      assert search[i..][1..] == search[i + 1..];
      if |search[i]| == 0 {
        i := i + 1;
        continue;
      }
      var pair := Split(search[i], '=');
      var value := UriComponent.Decode(if |pair| >= 2 then pair[1] else "undefined");
      if value.None? {
        return Thrown(URIError);
      }
      var k := KeyIndex(data, pair[0]);
      if k == |data| {
        if pair[0] in Inherited {
          return Thrown(TypeError);
        }
        data := data + [(pair[0], JsString(value.value))];
      } else if data[k].1.JsString? {
        data := data[k := (pair[0], JsArray([data[k].1, JsString(value.value)]))];
      } else if data[k].1.JsArray? {
        data := data[k := (pair[0], JsArray(data[k].1.items + [JsString(value.value)]))];
      } else {
        return Thrown(TypeError);
      }
      i := i + 1;
    }
    r := Done(data);
  }

  /** An object read from a query: no repeated names, none inherited. */
  predicate Keyed(data: seq<(string, JsValue)>)
  {
    DistinctKeys(data) && forall k :: 0 <= k < |data| ==> data[k].0 !in Inherited
  }

  lemma StepKeyed(data: seq<(string, JsValue)>, segment: string, decodeKeys: bool)
    requires Keyed(data) && Step(data, segment, decodeKeys).Done?
    ensures Keyed(Step(data, segment, decodeKeys).value)
  {
  }

  /** Reading a query never repeats a name nor stores an inherited one. */
  lemma {:induction false} StepsKeyed(data: seq<(string, JsValue)>, segments: seq<string>, decodeKeys: bool)
    requires Keyed(data) && Steps(data, segments, decodeKeys).Done?
    ensures Keyed(Steps(data, segments, decodeKeys).value)
    decreases |segments|
  {
    if segments != [] {
      StepKeyed(data, segments[0], decodeKeys);
      StepsKeyed(Step(data, segments[0], decodeKeys).value, segments[1..], decodeKeys);
    }
  }

  // ---------------------------------------------------------------------
  // Writing and reading back

  /** A name as the reader sees it: decoded back, or still encoded. */
  function ReadName(name: string, decodeKeys: bool): string
  {
    if decodeKeys then name else UriComponent.Encode(name)
  }

  /** The object a list of fields is read back as: each name as read, with its value's text. */
  function TextProps(fields: seq<Field>, decodeKeys: bool): (r: seq<(string, JsValue)>)
    ensures |r| == |fields|
    ensures forall k :: 0 <= k < |fields| ==> r[k] == (ReadName(fields[k].name, decodeKeys), JsString(ToText(fields[k].value)))
  {
    seq(|fields|, k requires 0 <= k < |fields| => (ReadName(fields[k].name, decodeKeys), JsString(ToText(fields[k].value))))
  }

  /** Fields a query string carries back: their names as read neither repeat nor are inherited. */
  predicate Readable(fields: seq<Field>, decodeKeys: bool)
  {
    Keyed(TextProps(fields, decodeKeys))
  }

  /** An encoded text holds neither `&` nor `=`. */
  lemma EncodedHasNoSeparators(s: string)
    ensures '&' !in UriComponent.Encode(s) && '=' !in UriComponent.Encode(s)
  {
    UriComponent.EncodeSafe(s);
    var e := UriComponent.Encode(s);
    forall k | 0 <= k < |e|
      ensures e[k] != '&' && e[k] != '='
    {
      assert e[k] == '%' || UriComponent.Unreserved(e[k]);
    }
  }

  /** A field's text holds no `&`, and splits on `=` into its encoded name and value. */
  lemma FieldTextSplits(f: Field)
    ensures '&' !in FieldText(f)
    ensures Split(FieldText(f), '=') == [UriComponent.Encode(f.name), UriComponent.Encode(ToText(f.value))]
  {
    var n, t := UriComponent.Encode(f.name), UriComponent.Encode(ToText(f.value));
    EncodedHasNoSeparators(f.name);
    EncodedHasNoSeparators(ToText(f.value));
    JsValues.SplitJoin([n, t], '=');
    assert JoinWith([n, t], "=") == FieldText(f);
  }

  /** One field's text read into an object that does not have its name yet. */
  lemma StepField(data: seq<(string, JsValue)>, f: Field, decodeKeys: bool)
    requires ReadName(f.name, decodeKeys) !in Inherited
    requires forall k :: 0 <= k < |data| ==> data[k].0 != ReadName(f.name, decodeKeys)
    ensures Step(data, FieldText(f), decodeKeys) == Done(data + [(ReadName(f.name, decodeKeys), JsString(ToText(f.value)))])
  {
    FieldTextSplits(f);
    UriComponent.DecodeEncode(f.name);
    UriComponent.DecodeEncode(ToText(f.value));
  }

  /** The first property of a keyed tail is new to what comes before it. */
  lemma KeyedHead(data: seq<(string, JsValue)>, props: seq<(string, JsValue)>)
    requires props != [] && Keyed(data + props)
    ensures props[0].0 !in Inherited
    ensures forall k :: 0 <= k < |data| ==> data[k].0 != props[0].0
  {
    var all := data + props;
    assert all[|data|] == props[0];
    forall k | 0 <= k < |data|
      ensures data[k].0 != props[0].0
    {
      assert data[k] == all[k];
    }
  }

  lemma TextsTail(fields: seq<Field>, decodeKeys: bool)
    requires fields != []
    ensures FieldTexts(fields)[0] == FieldText(fields[0]) && FieldTexts(fields)[1..] == FieldTexts(fields[1..])
    ensures TextProps(fields, decodeKeys)[0] == (ReadName(fields[0].name, decodeKeys), JsString(ToText(fields[0].value)))
    ensures TextProps(fields[1..], decodeKeys) == TextProps(fields, decodeKeys)[1..]
  {
  }

  /** Reading the first field's text adds its property; the rest is read after it. */
  lemma StepsFirstField(data: seq<(string, JsValue)>, fields: seq<Field>, decodeKeys: bool)
    requires fields != [] && Keyed(data + TextProps(fields, decodeKeys))
    ensures Steps(data, FieldTexts(fields), decodeKeys)
      == Steps(data + [TextProps(fields, decodeKeys)[0]], FieldTexts(fields[1..]), decodeKeys)
  {
    var props := TextProps(fields, decodeKeys);
    TextsTail(fields, decodeKeys);
    KeyedHead(data, props);
    StepField(data, fields[0], decodeKeys);
    StepsCons(data, FieldTexts(fields), decodeKeys, data + [props[0]]);
  }

  /** The texts of fields read one after the other, when no name as read repeats one before it. */
  lemma {:induction false} StepsFields(data: seq<(string, JsValue)>, fields: seq<Field>, decodeKeys: bool)
    requires Keyed(data + TextProps(fields, decodeKeys))
    ensures Steps(data, FieldTexts(fields), decodeKeys) == Done(data + TextProps(fields, decodeKeys))
    decreases |fields|
  {
    var props := TextProps(fields, decodeKeys);
    if fields != [] {
      var next := data + [props[0]];
      StepsFirstField(data, fields, decodeKeys);
      TextsTail(fields, decodeKeys);
      assert next + TextProps(fields[1..], decodeKeys) == data + props;
      StepsFields(next, fields[1..], decodeKeys);
    } else {
      assert FieldTexts(fields) == [] && props == [];
      assert data + [] == data;
    }
  }

  /**
   * A query string written from fields reads back as those fields, with
   * each name as the reader sees it and each value as text, when those
   * names neither repeat nor are inherited.
   */
  lemma ParseSerialized(fields: seq<Field>, decodeKeys: bool)
    requires Readable(fields, decodeKeys)
    ensures ParseQuery(Serialized(fields), decodeKeys) == Done(TextProps(fields, decodeKeys))
  {
    var texts := FieldTexts(fields);
    if fields == [] {
      assert Serialized(fields) == "";
      assert Split("", '&') == [""];
      assert Step([], "", decodeKeys) == Done([]);
      StepsCons([], [""], decodeKeys, []);
      assert TextProps(fields, decodeKeys) == [];
    } else {
      forall k | 0 <= k < |texts|
        ensures '&' !in texts[k]
      {
        FieldTextSplits(fields[k]);
      }
      SplitJoin(texts, '&');
      assert [] + TextProps(fields, decodeKeys) == TextProps(fields, decodeKeys);
      StepsFields([], fields, decodeKeys);
    }
  }

  /** Encoding keeps different names apart. */
  lemma EncodeInjective(a: string, b: string)
    requires UriComponent.Encode(a) == UriComponent.Encode(b)
    ensures a == b
  {
    UriComponent.DecodeEncode(a);
    UriComponent.DecodeEncode(b);
  }

  /** Names `encodeURIComponent` leaves as they are. */
  predicate PlainName(name: string)
  {
    forall k :: 0 <= k < |name| ==> UriComponent.Unreserved(name[k])
  }

  lemma {:induction false} PlainEncode(s: string)
    requires PlainName(s)
    ensures UriComponent.Encode(s) == s
    decreases |s|
  {
    if s != [] {
      PlainEncode(s[1..]);
      assert s == [s[0]] + s[1..];
    }
  }

  /** A text whose encoding holds no escape is its own encoding. */
  lemma {:induction false} UnescapedEncode(s: string)
    requires '%' !in UriComponent.Encode(s)
    ensures UriComponent.Encode(s) == s
    decreases |s|
  {
    if s != [] {
      var head := UriComponent.EncodeChar(s[0]);
      assert UriComponent.Encode(s) == head + UriComponent.Encode(s[1..]);
      UnescapedEncode(s[1..]);
      assert s == [s[0]] + s[1..];
    }
  }

  /** No inherited name holds a `%`, so only that name itself encodes to it. */
  lemma EncodedInherited(name: string)
    requires UriComponent.Encode(name) in Inherited
    ensures name in Inherited
  {
    InheritedUnescaped(UriComponent.Encode(name));
    UnescapedEncode(name);
  }

  lemma InheritedUnescaped(name: string)
    requires name in Inherited
    ensures '%' !in name
  {
  }

  /** Names taken from an object read from a query can be written and read back, encoded. */
  lemma PropsReadable(data: seq<(string, JsValue)>)
    requires Keyed(data)
    ensures Readable(PropFields(data), false)
  {
    var props := TextProps(PropFields(data), false);
    forall i, j | 0 <= i < j < |props|
      ensures props[i].0 != props[j].0
    {
      if props[i].0 == props[j].0 {
        EncodeInjective(data[i].0, data[j].0);
      }
    }
    forall k | 0 <= k < |props|
      ensures props[k].0 !in Inherited
    {
      if props[k].0 in Inherited {
        EncodedInherited(data[k].0);
      }
    }
  }

  /** With the keys decoded, a query the helpers wrote is read and written again unchanged. */
  lemma RewriteKeepsQuery(fields: seq<Field>)
    requires Readable(fields, true)
    requires forall k :: 0 <= k < |fields| ==> fields[k].value.JsString?
    ensures ParseQuery(Serialized(fields), true) == Done(TextProps(fields, true))
    ensures PropFields(TextProps(fields, true)) == fields
  {
    ParseSerialized(fields, true);
  }

  /**
   * As written, a name with a space grows an escape each time the query is
   * read and written: "a b" is written as "a%20b", read back under that
   * name, and written again as "a%2520b".
   */
  lemma KeysEncodedTwice()
    ensures ParseQuery("a%20b=1", false) == Done([("a%20b", JsString("1"))])
    ensures Serialized(PropFields([("a%20b", JsString("1"))])) == "a%2520b=1"
  {
    EncodeExamples();
    var f := Field("a b", JsString("1"));
    FieldTextSpace();
    SerializedOne(f);
    SpaceFieldReadable();
    ParseSerialized([f], false);
    var g := Field("a%20b", JsString("1"));
    assert PropFields([("a%20b", JsString("1"))]) == [g];
    FieldTextPercent();
    SerializedOne(g);
  }

  lemma SpaceFieldReadable()
    ensures TextProps([Field("a b", JsString("1"))], false) == [("a%20b", JsString("1"))]
    ensures Readable([Field("a b", JsString("1"))], false)
  {
    EncodeExamples();
    assert '%' in "a%20b";
    if "a%20b" in Inherited {
      InheritedUnescaped("a%20b");
    }
  }

  lemma FieldTextSpace()
    ensures FieldText(Field("a b", JsString("1"))) == "a%20b=1"
  {
    EncodeExamples();
    assert "a%20b" + "=" + "1" == "a%20b=1";
  }

  lemma FieldTextPercent()
    ensures FieldText(Field("a%20b", JsString("1"))) == "a%2520b=1"
  {
    EncodeExamples();
    assert "a%2520b" + "=" + "1" == "a%2520b=1";
  }

  lemma EncodeExamples()
    ensures UriComponent.Encode("1") == "1"
    ensures UriComponent.Encode("a b") == "a%20b"
    ensures UriComponent.Encode("a%20b") == "a%2520b"
  {
    PlainEncode("1");
    EncodeSpace();
    EncodePercent();
  }

  lemma EncodeSpace()
    ensures UriComponent.Encode("a b") == "a%20b"
  {
    PlainEncode("b");
    EscapeAscii(' ');
    assert UriComponent.EncodeChar(' ') == "%20";
    EncodeCons(' ', "b");
    assert " b" == [' '] + "b";
    EncodeCons('a', " b");
    assert "a b" == ['a'] + " b";
  }

  lemma EncodePercent()
    ensures UriComponent.Encode("a%20b") == "a%2520b"
  {
    PlainEncode("20b");
    EscapeAscii('%');
    assert UriComponent.EncodeChar('%') == "%25";
    EncodeCons('%', "20b");
    assert "%20b" == ['%'] + "20b";
    EncodeCons('a', "%20b");
    assert "a%20b" == ['a'] + "%20b";
  }

  /** A seven-bit character outside the unreserved set becomes one escape. */
  lemma EscapeAscii(c: char)
    requires c as int < 0x80 && !UriComponent.Unreserved(c)
    ensures UriComponent.EncodeChar(c) == ['%', UriComponent.HexDigit(c as int / 16), UriComponent.HexDigit(c as int % 16)]
  {
    assert Utf8.EncodeChar(c) == [c as int];
  }

  lemma EncodeCons(c: char, s: string)
    ensures UriComponent.Encode([c] + s) == UriComponent.EncodeChar(c) + UriComponent.Encode(s)
  {
    assert ([c] + s)[1..] == s;
  }

  lemma SerializedOne(f: Field)
    ensures Serialized([f]) == FieldText(f)
  {
    assert FieldTexts([f]) == [FieldText(f)];
  }

  // ---------------------------------------------------------------------
  // Search parameters in the page URL

  /** `location.search.substring(1)`. */
  function QueryOf(search: string): string
  {
    if |search| >= 1 then search[1..] else ""
  }

  /** The key the search parameters are kept under: the one given, or `searchCriteria`. */
  function ParamKey(key: JsValue): string
  {
    if Truthy(key) then ToText(key) else "searchCriteria"
  }

  /** `obj[key] = value`: replaced in place, or added last. */
  function Assign(data: seq<(string, JsValue)>, key: string, value: JsValue): (r: seq<(string, JsValue)>)
  {
    var i := KeyIndex(data, key);
    if i < |data| then data[i := (key, value)] else data + [(key, value)]
  }

  /** After `obj[key] = value` the key finds the value, and every other property is kept. */
  lemma AssignLookup(data: seq<(string, JsValue)>, key: string, value: JsValue)
    ensures var r := Assign(data, key, value);
      && Lookup(r, key) == value
      && (forall k :: 0 <= k < |data| && data[k].0 != key ==> data[k] in r)
      && (forall k :: 0 <= k < |r| ==> r[k] in data || r[k] == (key, value))
      && (DistinctKeys(data) ==> DistinctKeys(r))
  {
    var r := Assign(data, key, value);
    var i := KeyIndex(data, key);
    var j := KeyIndex(r, key);
    assert i < |r| && r[i] == (key, value);
    forall k | 0 <= k < i
      ensures r[k].0 != key
    {
      assert r[k] == data[k];
    }
    assert j == i;
    forall k | 0 <= k < |data| && data[k].0 != key
      ensures data[k] in r
    {
      assert r[k] == data[k];
    }
  }

  /** `delete obj[key]`. */
  function Remove(data: seq<(string, JsValue)>, key: string): (r: seq<(string, JsValue)>)
    ensures forall k :: 0 <= k < |r| ==> r[k].0 != key && r[k] in data
    ensures forall k :: 0 <= k < |data| && data[k].0 != key ==> data[k] in r
  {
    if data == [] then []
    else if data[0].0 == key then Remove(data[1..], key)
    else [data[0]] + Remove(data[1..], key)
  }

  /** `getSearchParamsFromUrl(key)` for a page whose `location.search` is `search`. */
  function GetSearchParamsFromUrl(search: string, key: JsValue, parse: string -> Option<JsValue>): Outcome<JsValue, JsError>
  {
    var data := ParseQuery(QueryOf(search), false);
    if data.Thrown? then Thrown(data.error)
    else Done(DecodeSearchParams(Lookup(data.value, ParamKey(key)), parse))
  }

  /**
   * The `location.search` that `setSearchParamsToUrl(obj, key)` leaves:
   * the parameters stored under the key when `obj` is truthy, removed
   * otherwise, the other properties written back in order.
   */
  function SetSearchParamsToUrl(search: string, obj: JsValue, key: JsValue): Outcome<string, JsError>
  {
    var data := ParseQuery(QueryOf(search), false);
    if data.Thrown? then Thrown(data.error)
    else
      var encoded := EncodeSearchParams(obj);
      if Truthy(obj) && encoded.None? then Thrown(InvalidCharacterError)
      else
        var next := if Truthy(obj) then Assign(data.value, ParamKey(key), JsString(encoded.value)) else Remove(data.value, ParamKey(key));
        Done(SearchOf(Serialized(PropFields(next))))
  }

  /** The `location.search` of a query: `?` and the query, or nothing for an empty one. */
  function SearchOf(query: string): (r: string)
    ensures QueryOf(r) == query
  {
    if query == "" then "" else "?" + query
  }

  lemma AssignKeyed(data: seq<(string, JsValue)>, key: string, value: JsValue)
    requires Keyed(data) && key !in Inherited
    ensures Keyed(Assign(data, key, value))
  {
    AssignLookup(data, key, value);
  }

  /**
   * A string stored under a plain name that is not inherited, in an object
   * read from a query, is found under that name once the object is written
   * and read again as written.
   */
  lemma StoredFoundAgain(data: seq<(string, JsValue)>, name: string, stored: string)
    requires Keyed(data) && PlainName(name) && name !in Inherited
    ensures var query := Serialized(PropFields(Assign(data, name, JsString(stored))));
      ParseQuery(query, false).Done? && Lookup(ParseQuery(query, false).value, name) == JsString(stored)
  {
    var next := Assign(data, name, JsString(stored));
    AssignLookup(data, name, JsString(stored));
    AssignKeyed(data, name, JsString(stored));
    var i := KeyIndex(next, name);
    assert i < |next| && next[i] == (name, JsString(stored));
    var fields := PropFields(next);
    PropsReadable(next);
    ParseSerialized(fields, false);
    var props := TextProps(fields, false);
    PlainEncode(name);
    assert props[i] == (name, JsString(stored));
    LookupAt(props, i);
  }

  /**
   * Search parameters stored in a URL that reads without error, under a
   * plain key that is not inherited, are found there again: the same JSON
   * is parsed.
   */
  lemma SearchParamsThroughUrl(search: string, obj: JsValue, key: JsValue, parse: string -> Option<JsValue>)
    requires ParseQuery(QueryOf(search), false).Done?
    requires Truthy(obj) && Base64.Latin1(JsonText(obj))
    requires PlainName(ParamKey(key)) && ParamKey(key) !in Inherited
    ensures SetSearchParamsToUrl(search, obj, key).Done?
    ensures GetSearchParamsFromUrl(SetSearchParamsToUrl(search, obj, key).value, key, parse) == Done(Parsed(parse, JsonText(obj)))
  {
    var name := ParamKey(key);
    var data := ParseQuery(QueryOf(search), false).value;
    StepsKeyed([], Split(QueryOf(search), '&'), false);
    DecodeEncodeSearchParams(obj, parse);
    var stored := EncodeSearchParams(obj).value;
    StoredFoundAgain(data, name, stored);
    SetStores(search, obj, key);
  }

  lemma SetStores(search: string, obj: JsValue, key: JsValue)
    requires ParseQuery(QueryOf(search), false).Done?
    requires Truthy(obj) && EncodeSearchParams(obj).Some?
    ensures var data := ParseQuery(QueryOf(search), false).value;
      SetSearchParamsToUrl(search, obj, key)
      == Done(SearchOf(Serialized(PropFields(Assign(data, ParamKey(key), JsString(EncodeSearchParams(obj).value))))))
  {
  }

  // ---------------------------------------------------------------------
  // Action URLs

  /** The route of an action: as given when it names its controller, else under `search/`. */
  function Route(action: string): string
  {
    if '/' in action then action else "search/" + action
  }

  /** The URL `callAction` opens, before any data. */
  function ActionPath(action: string, urlOverride: JsValue): string
  {
    (if Truthy(urlOverride) then ToText(urlOverride) else "/") + "?action=reliquary/" + Route(action)
  }

  /** The URL `callAction` opens: a GET request with data carries its flattened fields after `&`. */
  function ActionUrl(action: string, requestMethod: string, data: JsValue, urlOverride: JsValue): string
  {
    var url := ActionPath(action, urlOverride);
    if Truthy(data) && requestMethod == "GET" then url + "&" + Serialized(Flatten(data, "")) else url
  }

  /**
   * The fields of a GET request's data read back from its URL, once its
   * names are decoded; other requests carry nothing in the URL.
   */
  lemma ActionUrlCarriesData(action: string, requestMethod: string, data: JsValue, urlOverride: JsValue)
    requires Readable(Flatten(data, ""), true)
    ensures var url := ActionUrl(action, requestMethod, data, urlOverride);
      var path := ActionPath(action, urlOverride);
      && HasPrefix(url, path)
      && (Truthy(data) && requestMethod == "GET" ==>
            ParseQuery(url[|path| + 1..], true) == Done(TextProps(Flatten(data, ""), true)))
      && (!(Truthy(data) && requestMethod == "GET") ==> url == path)
  {
    var url := ActionUrl(action, requestMethod, data, urlOverride);
    var path := ActionPath(action, urlOverride);
    if Truthy(data) && requestMethod == "GET" {
      assert url[|path| + 1..] == Serialized(Flatten(data, ""));
      ParseSerialized(Flatten(data, ""), true);
    }
  }
}
