/**
 * The filter adapter (src/adapters/FilterQueries.php): the handlers that
 * `setup()` binds to each field class for the "modify filter query"
 * event. A handler marks the event handled, checks the shape of the
 * submitted value, and then either joins tables and appends conditions to
 * the shared filter query, or asks for the value to go to the text search.
 *
 * The query is kept as its list of joins and its list of conditions;
 * what SQL they become is the framework's business.
 */
module FilterQueries {
  import opened Optional
  import opened PhpValues

  /** The field classes `setup()` binds a handler to, and any other class. */
  datatype FieldType =
    | Assets | Categories | Checkboxes | Date | Dropdown | Entries | Lightswitch
    | MultiSelect | Number | PlainText | RadioButtons | Tags | Users | MapField | OtherField

  /** The relation fields and the table their targets live in. */
  datatype RelationKind = AssetsRelation | CategoriesRelation | EntriesRelation | TagsRelation | UsersRelation

  /** What a handler reads of the filter: its id, its field's id and handle, and its group's site. */
  datatype FilterTarget = FilterTarget(filterId: int, fieldId: int, fieldHandle: string, siteId: int)

  /** A join the handlers add to the filter query. */
  datatype Join =
      /** `{{%relations}} alias` on `e.id = alias.sourceId`. */
    | RelationsJoin(alias: string)
      /** `{{%table}} alias` on `relations.targetId = alias.id`. */
    | TargetJoin(table: string, alias: string, relations: string)
      /** `{{%content}} alias` on the element and site. */
    | ContentJoin(alias: string)
      /** `{{%maps}} alias` on `e.id = alias.ownerId`. */
    | MapJoin(alias: string)

  /** A condition the handlers append with `andWhere`. */
  datatype Condition =
      /** `[alias.id => $value]`: the target is one of the given ids. */
    | IdIn(alias: string, ids: Value)
      /** The relation's source site is the group's site or null, and its field is the filter's field. */
    | RelationScope(relations: string, siteId: int, fieldId: int)
    | Like(column: string, pattern: string)
    | Equals(column: string, text: string)
      /** Within `rad` of the point (`lat`, `lon`); the geometry is the database's. */
    | WithinRadius(alias: string, lat: Value, lon: Value, rad: Value)
    | MapScope(alias: string, siteId: int, fieldId: int)

  /** The exceptions a handler ends in. */
  datatype HandlerError =
      /** `new \Exception('Bad filter data')`. */
    | BadFilterData
      /** The event names a handler method the adapter does not define. */
    | InvalidCallback(name: string)

  // ---------------------------------------------------------------------
  // Aliases, columns and LIKE patterns

  /** A join alias: the handler's prefix followed by the filter id. */
  function Alias(prefix: string, filterId: int): string
  {
    prefix + IntText(filterId)
  }

  /** Two filters never share an alias. */
  lemma AliasInjective(prefix: string, a: int, b: int)
    requires Alias(prefix, a) == Alias(prefix, b)
    ensures a == b
  {
    assert IntText(a) == Alias(prefix, a)[|prefix|..] == Alias(prefix, b)[|prefix|..] == IntText(b);
    IntTextInjective(a, b);
  }

  /** The content column of the field: `alias.field_handle`. */
  function FieldColumn(content: string, handle: string): string
  {
    content + ".field_" + handle
  }

  function HexDigit(d: int): (c: char)
    requires 0 <= d < 16
  {
    if d < 10 then DigitChar(d) else ('a' as int + d - 10) as char
  }

  /** Four lower-case hexadecimal digits. */
  function Hex4(n: int): (r: string)
    requires 0 <= n < 0x10000
    ensures |r| == 4
  {
    [HexDigit(n / 0x1000), HexDigit(n / 0x100 % 16), HexDigit(n / 0x10 % 16), HexDigit(n % 16)]
  }

  /**
   * One character as `json_encode` writes it with its default flags:
   * quote, backslash and slash escaped, control characters and everything
   * beyond ASCII as `\uXXXX` escapes (a surrogate pair above U+FFFF).
   */
  function JsonChar(c: char): (r: string)
    ensures r == [c] || (|r| > 1 && r[0] == '\\')
  {
    var n := c as int;
    if c == '"' then "\\\""
    else if c == '\\' then "\\\\"
    else if c == '/' then "\\/"
    else if n == 0x08 then "\\b"
    else if n == 0x0C then "\\f"
    else if c == '\n' then "\\n"
    else if c == '\r' then "\\r"
    else if c == '\t' then "\\t"
    else if n < 0x20 || (0x80 <= n < 0x10000) then "\\u" + Hex4(n)
    else if n >= 0x10000 then
      var u := n - 0x10000;
      "\\u" + Hex4(0xD800 + u / 0x400) + "\\u" + Hex4(0xDC00 + u % 0x400)
    else [c]
  }

  /** The characters between the quotes of `json_encode($s)`. */
  function JsonBody(s: string): string
  {
    if s == [] then [] else JsonChar(s[0]) + JsonBody(s[1..])
  }

  /** `json_encode($s)` for a string. */
  function JsonString(s: string): (r: string)
    ensures |r| >= 2 && r[0] == '"' && r[|r| - 1] == '"'
  {
    "\"" + JsonBody(s) + "\""
  }

  /** The LIKE wildcards `addcslashes(..., '%_')` escapes. */
  predicate Wildcard(c: char) { c == '%' || c == '_' }

  /** `addcslashes($s, '%_')`: a backslash before every `%` and `_`. */
  function EscapeWildcards(s: string): (r: string)
    ensures |r| >= |s|
  {
    if s == [] then []
    else if Wildcard(s[0]) then ['\\', s[0]] + EscapeWildcards(s[1..])
    else [s[0]] + EscapeWildcards(s[1..])
  }

  /** Drops every backslash that directly precedes a `%` or `_`. */
  function UnescapeWildcards(s: string): string
  {
    if s == [] then []
    else if |s| >= 2 && s[0] == '\\' && Wildcard(s[1]) then [s[1]] + UnescapeWildcards(s[2..])
    else [s[0]] + UnescapeWildcards(s[1..])
  }

  /** Every `%` and `_` of the text is directly preceded by a backslash. */
  predicate WildcardsEscaped(p: string)
  {
    forall i :: 0 <= i < |p| && Wildcard(p[i]) ==> i > 0 && p[i - 1] == '\\'
  }

  /** Escaping leaves no bare wildcard behind, and dropping the escapes gives the text back. */
  lemma {:induction false} EscapeWildcardsSound(s: string)
    ensures WildcardsEscaped(EscapeWildcards(s))
    ensures UnescapeWildcards(EscapeWildcards(s)) == s
  {
    if s != [] {
      EscapeWildcardsSound(s[1..]);
      var rest := EscapeWildcards(s[1..]);
      var r := EscapeWildcards(s);
      if Wildcard(s[0]) {
        assert r == ['\\', s[0]] + rest;
        forall i | 0 <= i < |r| && Wildcard(r[i]) ensures i > 0 && r[i - 1] == '\\' {
          if i >= 2 {
            assert r[i] == rest[i - 2];
            if i - 2 > 0 {
              assert r[i - 1] == rest[i - 3];
            }
          }
        }
      } else {
        assert r == [s[0]] + rest;
        forall i | 0 <= i < |r| && Wildcard(r[i]) ensures i > 0 && r[i - 1] == '\\' {
          if i >= 1 {
            assert r[i] == rest[i - 1];
            if i - 1 > 0 {
              assert r[i - 1] == rest[i - 2];
            }
          }
        }
        if |r| >= 2 && r[0] == '\\' {
          assert !Wildcard(r[1]) by {
            if rest != [] && Wildcard(rest[0]) {
              assert false;
            }
          }
        }
      }
    }
  }

  /** The LIKE pattern of the checkbox, multi-select, dropdown and radio handlers. */
  function LikePattern(s: string): string
  {
    EscapeWildcards(JsonString(s))
  }

  /** The pattern is the value's JSON text with its wildcards escaped, and nothing else. */
  lemma LikePatternSound(s: string)
    ensures WildcardsEscaped(LikePattern(s))
    ensures UnescapeWildcards(LikePattern(s)) == JsonString(s)
    ensures LikePattern(s)[0] == '"'
  {
    EscapeWildcardsSound(JsonString(s));
  }

  /** One LIKE condition per text, in order. */
  function LikeAll(column: string, texts: seq<string>): (r: seq<Condition>)
    ensures |r| == |texts|
    ensures forall k :: 0 <= k < |texts| ==> r[k] == Like(column, LikePattern(texts[k]))
  {
    seq(|texts|, k requires 0 <= k < |texts| => Like(column, LikePattern(texts[k])))
  }

  /** The length of the run of strings at the start of `items`. */
  function StringRun(items: seq<Value>): (n: nat)
    ensures n <= |items|
    ensures forall k :: 0 <= k < n ==> items[k].Str?
    ensures n < |items| ==> !items[n].Str?
  {
    if items == [] || !items[0].Str? then 0 else 1 + StringRun(items[1..])
  }

  /** The texts of the first `n` items, all strings. */
  function Texts(items: seq<Value>, n: nat): (r: seq<string>)
    requires n <= |items| && forall k :: 0 <= k < n ==> items[k].Str?
    ensures |r| == n && forall k :: 0 <= k < n ==> r[k] == items[k].s
  {
    seq(n, k requires 0 <= k < n => items[k].s)
  }

  /** The three values a map filter needs. */
  function Lat(v: Value): Value requires v.Arr? { At(v, StrKey("lat")) }
  function Lon(v: Value): Value requires v.Arr? { At(v, StrKey("lon")) }
  function Rad(v: Value): Value requires v.Arr? { At(v, StrKey("rad")) }

  /** No coordinate was given at all. */
  predicate NoCoordinates(v: Value)
    requires v.Arr?
  {
    PhpEmpty(Lat(v)) && PhpEmpty(Lon(v)) && PhpEmpty(Rad(v))
  }

  /** Every coordinate is present and numeric. */
  predicate CoordinatesGiven(v: Value)
    requires v.Arr?
  {
    && !PhpEmpty(Lat(v)) && IsNumeric(Lat(v))
    && !PhpEmpty(Lon(v)) && IsNumeric(Lon(v))
    && !PhpEmpty(Rad(v)) && IsNumeric(Rad(v))
  }

  // ---------------------------------------------------------------------
  // What a handler does with a value

  /** The handler `setup()` binds to each field class (with the lightswitch one named correctly). */
  predicate Bound(field: FieldType)
  {
    field !in {Date, Number, OtherField}
  }

  /** How an event ends: whether it was handled, whether it asked for text search, and any exception. */
  datatype Handling = Handling(handled: bool, textSearch: bool, error: Option<HandlerError>)

  /**
   * The outcome of the bound handler for a value: every bound handler
   * marks the event handled before it looks at the value, so a value of
   * the wrong shape raises rather than looking unhandled.
   */
  function FieldHandling(field: FieldType, value: Value): (h: Handling)
    ensures h.handled <==> Bound(field)
    ensures h.error.Some? ==> h.handled && h.error == Some(BadFilterData)
    ensures h.textSearch ==> field == PlainText && h.error.None?
    ensures field in {Assets, Categories, Entries, Tags, Users} ==> (h.error.None? <==> value.Arr?)
    ensures field in {Dropdown, Lightswitch, PlainText, RadioButtons} ==> (h.error.None? <==> value.Str?)
    ensures field in {Checkboxes, MultiSelect} ==>
      (h.error.None? <==> value.Arr? && forall k :: 0 <= k < |value.entries| ==> value.entries[k].1.Str?)
  {
    var bad := Some(BadFilterData);
    match field
    case Assets | Categories | Entries | Tags | Users =>
      Handling(true, false, if value.Arr? then None else bad)
    case Dropdown | Lightswitch | RadioButtons =>
      Handling(true, false, if value.Str? then None else bad)
    case PlainText =>
      Handling(true, value.Str?, if value.Str? then None else bad)
    case Checkboxes | MultiSelect =>
      Handling(true, false, if value.Arr? && StringRun(Items(value)) == |value.entries| then None else bad)
    case MapField =>
      Handling(true, false, if value.Arr? && (NoCoordinates(value) || CoordinatesGiven(value)) then None else bad)
    case Date | Number | OtherField =>
      Handling(false, false, None)
  }

  // ---------------------------------------------------------------------
  // The event and the handlers

  /** The filter query the handlers of one search share. */
  class FilterQuery {
    var joins: seq<Join>
    var conditions: seq<Condition>

    constructor ()
      ensures joins == [] && conditions == []
    {
      joins := [];
      conditions := [];
    }
  }

  /** The "modify filter query" event: the query, the filter, the value, and what the handlers report. */
  class ModifyFilterQuery {
    const query: FilterQuery
    const target: FilterTarget
    const value: Value
    var handled: bool
    var textSearch: bool

    constructor (query: FilterQuery, target: FilterTarget, value: Value)
      ensures this.query == query && this.target == target && this.value == value
      ensures !handled && !textSearch
    {
      this.query := query;
      this.target := target;
      this.value := value;
      handled := false;
      textSearch := false;
    }
  }

  function TargetTable(kind: RelationKind): string
  {
    match kind
    case AssetsRelation => "assets"
    case CategoriesRelation => "categories"
    case EntriesRelation => "elements"
    case TagsRelation => "tags"
    case UsersRelation => "users"
  }

  function TargetPrefix(kind: RelationKind): string
  {
    match kind
    case AssetsRelation => "r_mfq_assets_"
    case CategoriesRelation => "r_mfq_categories_"
    case EntriesRelation => "r_mfq_elements_"
    case TagsRelation => "r_mfq_tags_"
    case UsersRelation => "r_mfq_users_"
  }

  /**
   * `filterAssetsQuery`, `filterCategoriesQuery`, `filterEntriesQuery`,
   * `filterTagsQuery`, `filterUsersQuery`: an array of target ids joins
   * the relations of the filter's field and keeps the elements related to
   * exactly those targets.
   */
  method FilterRelationsQuery(e: ModifyFilterQuery, kind: RelationKind) returns (error: Option<HandlerError>)
    modifies e, e.query
    ensures e.handled && e.textSearch == old(e.textSearch)
    ensures error.Some? <==> !e.value.Arr?
    ensures error.Some? ==>
      error == Some(BadFilterData) && e.query.joins == old(e.query.joins) && e.query.conditions == old(e.query.conditions)
    ensures error.None? ==>
      var relations := Alias("r_mfq_relations_", e.target.filterId);
      var targets := Alias(TargetPrefix(kind), e.target.filterId);
      && e.query.joins == old(e.query.joins) + [RelationsJoin(relations), TargetJoin(TargetTable(kind), targets, relations)]
      && e.query.conditions == old(e.query.conditions)
        + [IdIn(targets, e.value), RelationScope(relations, e.target.siteId, e.target.fieldId)]
  {
    e.handled := true;
    if !e.value.Arr? {
      return Some(BadFilterData);
    }
    var relations := Alias("r_mfq_relations_", e.target.filterId);
    var targets := Alias(TargetPrefix(kind), e.target.filterId);
    e.query.joins := e.query.joins + [RelationsJoin(relations), TargetJoin(TargetTable(kind), targets, relations)];
    e.query.conditions := e.query.conditions + [IdIn(targets, e.value)];
    e.query.conditions := e.query.conditions + [RelationScope(relations, e.target.siteId, e.target.fieldId)];
    return None;
  }

  /**
   * `filterCheckboxesQuery` and `filterMultiSelectQuery`: an array of
   * strings joins the content table and appends one LIKE condition per
   * item, so an element must contain every chosen option. A non-string
   * item raises, after the conditions for the items before it.
   */
  method FilterContainsAllQuery(e: ModifyFilterQuery) returns (error: Option<HandlerError>)
    modifies e, e.query
    ensures e.handled && e.textSearch == old(e.textSearch)
    ensures error.Some? ==> error == Some(BadFilterData)
    ensures error.None? <==> e.value.Arr? && StringRun(Items(e.value)) == |e.value.entries|
    ensures !e.value.Arr? ==> e.query.joins == old(e.query.joins) && e.query.conditions == old(e.query.conditions)
    ensures e.value.Arr? ==>
      var content := Alias("r_mfq_content_", e.target.filterId);
      var items := Items(e.value);
      && e.query.joins == old(e.query.joins) + [ContentJoin(content)]
      && e.query.conditions == old(e.query.conditions)
        + LikeAll(FieldColumn(content, e.target.fieldHandle), Texts(items, StringRun(items)))
  {
    e.handled := true;
    if !e.value.Arr? {
      return Some(BadFilterData);
    }
    var content := Alias("r_mfq_content_", e.target.filterId);
    var column := FieldColumn(content, e.target.fieldHandle);
    e.query.joins := e.query.joins + [ContentJoin(content)];
    var items := Items(e.value);
    var i := 0;
    while i < |items|
      invariant 0 <= i <= |items|
      invariant forall k :: 0 <= k < i ==> items[k].Str?
      invariant e.handled && e.textSearch == old(e.textSearch)
      invariant e.query.joins == old(e.query.joins) + [ContentJoin(content)]
      invariant e.query.conditions == old(e.query.conditions) + LikeAll(column, Texts(items, i))
    {
      if !items[i].Str? {
        return Some(BadFilterData);
      }
      assert LikeAll(column, Texts(items, i + 1)) == LikeAll(column, Texts(items, i)) + [Like(column, LikePattern(items[i].s))];
      e.query.conditions := e.query.conditions + [Like(column, LikePattern(items[i].s))];
      i := i + 1;
    }
    return None;
  }

  /**
   * `filterDropdownQuery` and `filterRadioButtonsQuery`: a string joins
   * the content table and appends one LIKE condition for it.
   */
  method FilterContainsQuery(e: ModifyFilterQuery) returns (error: Option<HandlerError>)
    modifies e, e.query
    ensures e.handled && e.textSearch == old(e.textSearch)
    ensures error.Some? <==> !e.value.Str?
    ensures error.Some? ==>
      error == Some(BadFilterData) && e.query.joins == old(e.query.joins) && e.query.conditions == old(e.query.conditions)
    ensures error.None? ==>
      var content := Alias("r_mfq_content_", e.target.filterId);
      && e.query.joins == old(e.query.joins) + [ContentJoin(content)]
      && e.query.conditions == old(e.query.conditions)
        + [Like(FieldColumn(content, e.target.fieldHandle), LikePattern(e.value.s))]
  {
    e.handled := true;
    if !e.value.Str? {
      return Some(BadFilterData);
    }
    var content := Alias("r_mfq_content_", e.target.filterId);
    e.query.joins := e.query.joins + [ContentJoin(content)];
    e.query.conditions := e.query.conditions + [Like(FieldColumn(content, e.target.fieldHandle), LikePattern(e.value.s))];
    return None;
  }

  /** `filterLightswitchQuery`: a string joins the content table and requires the column to equal it. */
  method FilterLightswitchQuery(e: ModifyFilterQuery) returns (error: Option<HandlerError>)
    modifies e, e.query
    ensures e.handled && e.textSearch == old(e.textSearch)
    ensures error.Some? <==> !e.value.Str?
    ensures error.Some? ==>
      error == Some(BadFilterData) && e.query.joins == old(e.query.joins) && e.query.conditions == old(e.query.conditions)
    ensures error.None? ==>
      var content := Alias("r_mfq_content_", e.target.filterId);
      && e.query.joins == old(e.query.joins) + [ContentJoin(content)]
      && e.query.conditions == old(e.query.conditions) + [Equals(FieldColumn(content, e.target.fieldHandle), e.value.s)]
  {
    e.handled := true;
    if !e.value.Str? {
      return Some(BadFilterData);
    }
    var content := Alias("r_mfq_content_", e.target.filterId);
    e.query.joins := e.query.joins + [ContentJoin(content)];
    e.query.conditions := e.query.conditions + [Equals(FieldColumn(content, e.target.fieldHandle), e.value.s)];
    return None;
  }

  /** `filterPlainTextQuery`: a string is only passed on to the text search; the query is untouched. */
  method FilterPlainTextQuery(e: ModifyFilterQuery) returns (error: Option<HandlerError>)
    modifies e
    ensures e.handled
    ensures error.Some? <==> !e.value.Str?
    ensures error.Some? ==> error == Some(BadFilterData) && e.textSearch == old(e.textSearch)
    ensures error.None? ==> e.textSearch
  {
    e.handled := true;
    if !e.value.Str? {
      return Some(BadFilterData);
    }
    e.textSearch := true;
    return None;
  }

  /**
   * `filterMapFieldQuery`: with no coordinate at all the query is left
   * alone; otherwise latitude, longitude and radius must all be present
   * and numeric, and the elements are limited to those within the radius.
   */
  method FilterMapFieldQuery(e: ModifyFilterQuery) returns (error: Option<HandlerError>)
    modifies e, e.query
    ensures e.handled && e.textSearch == old(e.textSearch)
    ensures error.Some? ==> error == Some(BadFilterData)
    ensures error.None? <==> e.value.Arr? && (NoCoordinates(e.value) || CoordinatesGiven(e.value))
    ensures error.Some? || NoCoordinates(e.value) ==>
      e.query.joins == old(e.query.joins) && e.query.conditions == old(e.query.conditions)
    ensures error.None? && !NoCoordinates(e.value) ==>
      var maps := Alias("r_mfq_map_", e.target.filterId);
      && e.query.joins == old(e.query.joins) + [MapJoin(maps)]
      && e.query.conditions == old(e.query.conditions)
        + [WithinRadius(maps, Lat(e.value), Lon(e.value), Rad(e.value)), MapScope(maps, e.target.siteId, e.target.fieldId)]
  {
    e.handled := true;
    if !e.value.Arr? {
      return Some(BadFilterData);
    }
    if NoCoordinates(e.value) {
      return None;
    }
    if !CoordinatesGiven(e.value) {
      return Some(BadFilterData);
    }
    var maps := Alias("r_mfq_map_", e.target.filterId);
    e.query.joins := e.query.joins + [MapJoin(maps)];
    e.query.conditions := e.query.conditions + [WithinRadius(maps, Lat(e.value), Lon(e.value), Rad(e.value))];
    e.query.conditions := e.query.conditions + [MapScope(maps, e.target.siteId, e.target.fieldId)];
    return None;
  }

  /** The joins the handler bound to `field` adds to the query when it accepts `value`. */
  function HandlerJoins(field: FieldType, target: FilterTarget, value: Value): seq<Join>
  {
    var relations := Alias("r_mfq_relations_", target.filterId);
    var content := Alias("r_mfq_content_", target.filterId);
    match field
    case Assets => [RelationsJoin(relations), TargetJoin(TargetTable(AssetsRelation), Alias(TargetPrefix(AssetsRelation), target.filterId), relations)]
    case Categories => [RelationsJoin(relations), TargetJoin(TargetTable(CategoriesRelation), Alias(TargetPrefix(CategoriesRelation), target.filterId), relations)]
    case Entries => [RelationsJoin(relations), TargetJoin(TargetTable(EntriesRelation), Alias(TargetPrefix(EntriesRelation), target.filterId), relations)]
    case Tags => [RelationsJoin(relations), TargetJoin(TargetTable(TagsRelation), Alias(TargetPrefix(TagsRelation), target.filterId), relations)]
    case Users => [RelationsJoin(relations), TargetJoin(TargetTable(UsersRelation), Alias(TargetPrefix(UsersRelation), target.filterId), relations)]
    case Checkboxes | MultiSelect | Dropdown | RadioButtons | Lightswitch => [ContentJoin(content)]
    case MapField => if value.Arr? && NoCoordinates(value) then [] else [MapJoin(Alias("r_mfq_map_", target.filterId))]
    case PlainText | Date | Number | OtherField => []
  }

  /** The conditions the handler bound to `field` appends to the query when it accepts `value`. */
  function HandlerConditions(field: FieldType, target: FilterTarget, value: Value): seq<Condition>
  {
    var relations := Alias("r_mfq_relations_", target.filterId);
    var column := FieldColumn(Alias("r_mfq_content_", target.filterId), target.fieldHandle);
    var maps := Alias("r_mfq_map_", target.filterId);
    match field
    case Assets => [IdIn(Alias(TargetPrefix(AssetsRelation), target.filterId), value), RelationScope(relations, target.siteId, target.fieldId)]
    case Categories => [IdIn(Alias(TargetPrefix(CategoriesRelation), target.filterId), value), RelationScope(relations, target.siteId, target.fieldId)]
    case Entries => [IdIn(Alias(TargetPrefix(EntriesRelation), target.filterId), value), RelationScope(relations, target.siteId, target.fieldId)]
    case Tags => [IdIn(Alias(TargetPrefix(TagsRelation), target.filterId), value), RelationScope(relations, target.siteId, target.fieldId)]
    case Users => [IdIn(Alias(TargetPrefix(UsersRelation), target.filterId), value), RelationScope(relations, target.siteId, target.fieldId)]
    case Checkboxes | MultiSelect =>
      if value.Arr? then LikeAll(column, Texts(Items(value), StringRun(Items(value)))) else []
    case Dropdown | RadioButtons => if value.Str? then [Like(column, LikePattern(value.s))] else []
    case Lightswitch => if value.Str? then [Equals(column, value.s)] else []
    case MapField =>
      if !value.Arr? || NoCoordinates(value) then []
      else [WithinRadius(maps, Lat(value), Lon(value), Rad(value)), MapScope(maps, target.siteId, target.fieldId)]
    case PlainText | Date | Number | OtherField => []
  }

  /**
   * Triggering the event on a field class runs the handler bound to it:
   * the event ends as `FieldHandling` says. A class with no handler leaves
   * the event and the query untouched.
   */
  method ModifyFieldFilterQuery(e: ModifyFilterQuery, field: FieldType) returns (error: Option<HandlerError>)
    requires !e.handled && !e.textSearch
    modifies e, e.query
    ensures var h := FieldHandling(field, e.value);
      e.handled == h.handled && e.textSearch == h.textSearch && error == h.error
    ensures !Bound(field) ==> e.query.joins == old(e.query.joins) && e.query.conditions == old(e.query.conditions)
    ensures error.None? ==>
      && e.query.joins == old(e.query.joins) + HandlerJoins(field, e.target, e.value)
      && e.query.conditions == old(e.query.conditions) + HandlerConditions(field, e.target, e.value)
  {
    match field
    case Assets => error := FilterRelationsQuery(e, AssetsRelation);
    case Categories => error := FilterRelationsQuery(e, CategoriesRelation);
    case Entries => error := FilterRelationsQuery(e, EntriesRelation);
    case Tags => error := FilterRelationsQuery(e, TagsRelation);
    case Users => error := FilterRelationsQuery(e, UsersRelation);
    case Checkboxes | MultiSelect => error := FilterContainsAllQuery(e);
    case Dropdown | RadioButtons => error := FilterContainsQuery(e);
    case Lightswitch => error := FilterLightswitchQuery(e);
    case PlainText => error := FilterPlainTextQuery(e);
    case MapField => error := FilterMapFieldQuery(e);
    case Date | Number | OtherField => error := None;
  }

  /**
   * The same, with the lightswitch binding as written: it names
   * `filterLigthswitchQuery`, a method the adapter does not have, so a
   * lightswitch filter ends in an error instead of being applied.
   */
  method ModifyFieldFilterQueryAsWritten(e: ModifyFilterQuery, field: FieldType) returns (error: Option<HandlerError>)
    requires !e.handled && !e.textSearch
    modifies e, e.query
    ensures field == Lightswitch ==>
      && error == Some(InvalidCallback("filterLigthswitchQuery")) && !e.handled
      && e.query.joins == old(e.query.joins) && e.query.conditions == old(e.query.conditions)
    ensures field != Lightswitch ==> var h := FieldHandling(field, e.value);
      e.handled == h.handled && e.textSearch == h.textSearch && error == h.error
  {
    if field == Lightswitch {
      return Some(InvalidCallback("filterLigthswitchQuery"));
    }
    error := ModifyFieldFilterQuery(e, field);
  }
}
