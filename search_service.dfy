/**
 * The search service (src/services/Search.php): `doSearch` checks the
 * submitted options against the group's filters, hands each filter value
 * to the handler of its field, routes text values to the full-text
 * search, runs the query, loads the page's elements type by type and
 * reports the page; `getOptions` picks the option list of a filter.
 *
 * The SQL the query becomes, the database's relevance scores and its
 * ordering are inputs: `SearchDb.rows` returns the matching rows of a
 * query in the database's order.
 */
module SearchService {
  import opened Optional
  import opened PhpValues
  import opened Records
  import opened FilterQueries
  import opened QueryBuilder
  import opened OptionEvents
  import opened FieldOptions
  import opened AttributeOptions

  /** One submitted option: the filter it names (none for the general term) and its value (null when unset). */
  datatype SearchOption = SearchOption(filter: Option<int>, value: Value)

  /** The class, handle and settings of a field, as `$filter->getField()` gives them. */
  datatype FieldInfo = FieldInfo(fieldType: FieldType, handle: string, settings: FieldSettings)

  /** The exceptions a search ends in. */
  datatype SearchError =
      /** `SearchGroupNotFoundException`. */
    | GroupNotFound(groupId: int)
    | DuplicateSearchGroupFilter
      /** `SearchGroupFilterNotFoundException`. */
    | FilterNotFound(filterId: int)
    | NoModifyFilterQueryHandler
      /**
       * The attribute branch's `get_class($filter->getField())`: the field
       * lookup of a null or zero field id fails before the missing-handler
       * exception is built.
       */
    | AttributeFieldLookupFailed(attributeFieldId: Option<int>)
      /**
       * `$event->query->addSelect(...)` on the `null` query of an
       * extend-element-type event that no handler answered (an `Error`).
       */
    | NoExtendQueryHandler(elementType: string)
      /** An exception raised by the filter's handler itself. */
    | FilterHandlerFailed(error: HandlerError)
      /** `$filter->getField()` finds no field for the filter's field id. */
    | FieldNotFound(fieldId: int)
    | NoGetElementsHandler(elementType: string)
      /** `ceil($totalResults / $group->pageSize)` with a page size of 0. */
    | DivisionByZero
      /** Reading `fieldId` of the `null` that `getFilterById` returns for an unknown id. */
    | NullFilter(filterId: int)
    | NoGetFieldOptionsHandler
    | ConflictingAttributeOptions
    | NoGetAttributeOptionsHandler

  /** The key the general term is checked and stored under. */
  const GeneralKey: int := -1

  /** The key an option is checked under: its filter id, or -1 for the general term. */
  function OptionKey(o: SearchOption): int
  {
    if o.filter.None? then GeneralKey else o.filter.value
  }

  /** `if ($filter->fieldId)`: a filter on a field rather than on an attribute. */
  predicate OnField(f: Filter)
  {
    f.fieldId.Some? && f.fieldId.value != 0
  }

  // ---------------------------------------------------------------------
  // The option loop

  /**
   * What the handlers make of a filter's value: whether it goes to the
   * text search, or the exception the search ends in. Attribute filters
   * are offered to the element types' handlers, which never mark the
   * event handled, and the message of the exception that follows looks
   * up the filter's (absent) field, which fails first.
   */
  function FilterOutcome(f: Filter, value: Value, fields: map<int, FieldInfo>): (r: Outcome<bool, SearchError>)
    ensures !OnField(f) ==> r == Thrown(AttributeFieldLookupFailed(f.fieldId))
    ensures r == Thrown(NoModifyFilterQueryHandler) ==> OnField(f)
    ensures r.Done? ==>
      && OnField(f) && f.fieldId.value in fields
      && FieldHandling(fields[f.fieldId.value].fieldType, value) == Handling(true, r.value, None)
  {
    if !OnField(f) then Thrown(AttributeFieldLookupFailed(f.fieldId))
    else if f.fieldId.value !in fields then Thrown(FieldNotFound(f.fieldId.value))
    else
      var h := FieldHandling(fields[f.fieldId.value].fieldType, value);
      if h.error.Some? then Thrown(FilterHandlerFailed(h.error.value))
      else if !h.handled then Thrown(NoModifyFilterQueryHandler)
      else Done(h.textSearch)
  }

  /**
   * The option loop from a given state: `checked` holds the keys seen so
   * far and `strings` the text search values collected so far.
   */
  function Scan(options: seq<SearchOption>, filters: map<int, Filter>, fields: map<int, FieldInfo>,
                checked: set<int>, strings: map<int, Value>): Outcome<map<int, Value>, SearchError>
    decreases |options|
  {
    if options == [] then Done(strings)
    else
      var o := options[0];
      var rest := options[1..];
      if PhpEmpty(o.value) then Scan(rest, filters, fields, checked, strings)
      else if OptionKey(o) in checked then Thrown(DuplicateSearchGroupFilter)
      else if o.filter.None? then Scan(rest, filters, fields, checked + {GeneralKey}, strings[GeneralKey := o.value])
      else if o.filter.value !in filters then Thrown(FilterNotFound(o.filter.value))
      else match FilterOutcome(filters[o.filter.value], o.value, fields)
        case Thrown(e) => Thrown(e)
        case Done(text) =>
          Scan(rest, filters, fields, checked + {o.filter.value}, if text then strings[o.filter.value := o.value] else strings)
  }

  /** The options that are set and not empty, in order. */
  function Live(options: seq<SearchOption>): (r: seq<SearchOption>)
    ensures forall o :: o in r <==> o in options && !PhpEmpty(o.value)
  {
    if options == [] then []
    else if PhpEmpty(options[0].value) then Live(options[1..])
    else [options[0]] + Live(options[1..])
  }

  /** A live option that the handlers accept: the general term, or a known filter whose handler takes the value. */
  predicate Accepted(o: SearchOption, filters: map<int, Filter>, fields: map<int, FieldInfo>)
  {
    o.filter.None? || (o.filter.value in filters && FilterOutcome(filters[o.filter.value], o.value, fields).Done?)
  }

  /** A live option whose value goes to the text search. */
  predicate Routed(o: SearchOption, filters: map<int, Filter>, fields: map<int, FieldInfo>)
  {
    o.filter.None? || (o.filter.value in filters && FilterOutcome(filters[o.filter.value], o.value, fields) == Done(true))
  }

  /** No two options share a key. */
  predicate DistinctOptionKeys(live: seq<SearchOption>)
  {
    forall i, j :: 0 <= i < j < |live| ==> OptionKey(live[i]) != OptionKey(live[j])
  }

  /**
   * Empty options are skipped: they are never checked, never counted as
   * duplicates and never reach a handler.
   */
  lemma {:induction false} EmptyOptionsIgnored(options: seq<SearchOption>, filters: map<int, Filter>,
                                                fields: map<int, FieldInfo>, checked: set<int>, strings: map<int, Value>)
    ensures Scan(options, filters, fields, checked, strings) == Scan(Live(options), filters, fields, checked, strings)
    decreases |options|
  {
    if options != [] {
      var o := options[0];
      if PhpEmpty(o.value) {
        EmptyOptionsIgnored(options[1..], filters, fields, checked, strings);
      } else {
        assert Live(options) == [o] + Live(options[1..]);
        assert Live(options)[1..] == Live(options[1..]);
        forall c, s { EmptyOptionsIgnored(options[1..], filters, fields, c, s); }
      }
    }
  }

  /** Every option is accepted and none has a key checked before. */
  predicate AllAccepted(live: seq<SearchOption>, filters: map<int, Filter>, fields: map<int, FieldInfo>, checked: set<int>)
  {
    forall k :: 0 <= k < |live| ==> OptionKey(live[k]) !in checked && Accepted(live[k], filters, fields)
  }

  /** Some option has the key `key`. */
  predicate KeyUsed(live: seq<SearchOption>, key: int)
  {
    exists k :: 0 <= k < |live| && OptionKey(live[k]) == key
  }

  /** Some option sends its value to the text search under `key`. */
  predicate RoutesTo(live: seq<SearchOption>, filters: map<int, Filter>, fields: map<int, FieldInfo>, key: int)
  {
    exists k :: 0 <= k < |live| && OptionKey(live[k]) == key && Routed(live[k], filters, fields)
  }

  /** The loop's step on a set option it accepts. */
  lemma ScanAccepts(live: seq<SearchOption>, filters: map<int, Filter>, fields: map<int, FieldInfo>,
                    checked: set<int>, strings: map<int, Value>)
    requires live != [] && !PhpEmpty(live[0].value)
    requires OptionKey(live[0]) !in checked && Accepted(live[0], filters, fields)
    ensures Scan(live, filters, fields, checked, strings)
      == Scan(live[1..], filters, fields, checked + {OptionKey(live[0])},
              if Routed(live[0], filters, fields) then strings[OptionKey(live[0]) := live[0].value] else strings)
  {
  }

  /**
   * On options that are all set, the loop succeeds exactly when no key
   * repeats or was checked before and every option is accepted.
   */
  lemma {:induction false} ScanDone(live: seq<SearchOption>, filters: map<int, Filter>, fields: map<int, FieldInfo>,
                                    checked: set<int>, strings: map<int, Value>)
    requires forall k :: 0 <= k < |live| ==> !PhpEmpty(live[k].value)
    ensures Scan(live, filters, fields, checked, strings).Done?
      <==> DistinctOptionKeys(live) && AllAccepted(live, filters, fields, checked)
    decreases |live|
  {
    if live != [] {
      var o := live[0];
      var rest := live[1..];
      var key := OptionKey(o);
      assert forall k :: 0 <= k < |rest| ==> rest[k] == live[k + 1];
      if key !in checked && Accepted(o, filters, fields) {
        var strings' := if Routed(o, filters, fields) then strings[key := o.value] else strings;
        ScanAccepts(live, filters, fields, checked, strings);
        ScanDone(rest, filters, fields, checked + {key}, strings');
        if DistinctOptionKeys(rest) && AllAccepted(rest, filters, fields, checked + {key}) {
          forall i, j | 0 <= i < j < |live| ensures OptionKey(live[i]) != OptionKey(live[j]) {
            assert live[j] == rest[j - 1];
            if i > 0 {
              assert live[i] == rest[i - 1];
            }
          }
        }
      } else {
        assert !AllAccepted(live, filters, fields, checked);
      }
    }
  }

  /**
   * A successful loop adds each routed option's value under its key and
   * keeps every value whose key no option uses.
   */
  lemma {:induction false} ScanValue(live: seq<SearchOption>, filters: map<int, Filter>, fields: map<int, FieldInfo>,
                                     checked: set<int>, strings: map<int, Value>)
    requires forall k :: 0 <= k < |live| ==> !PhpEmpty(live[k].value)
    requires Scan(live, filters, fields, checked, strings).Done?
    ensures var m := Scan(live, filters, fields, checked, strings).value;
      && (forall key :: key in m <==> key in strings || RoutesTo(live, filters, fields, key))
      && (forall k :: 0 <= k < |live| && Routed(live[k], filters, fields) ==> m[OptionKey(live[k])] == live[k].value)
      && (forall key :: key in strings && !KeyUsed(live, key) ==> m[key] == strings[key])
    decreases |live|
  {
    if live != [] {
      var o := live[0];
      var rest := live[1..];
      var key := OptionKey(o);
      ScanDone(live, filters, fields, checked, strings);
      assert OptionKey(live[0]) !in checked && Accepted(live[0], filters, fields);
      var strings' := if Routed(o, filters, fields) then strings[key := o.value] else strings;
      ScanAccepts(live, filters, fields, checked, strings);
      ScanValue(rest, filters, fields, checked + {key}, strings');
      var m := Scan(live, filters, fields, checked, strings).value;
      assert forall k :: 0 <= k < |rest| ==> rest[k] == live[k + 1];
      assert !KeyUsed(rest, key) by {
        forall j | 0 <= j < |rest| ensures OptionKey(rest[j]) != key {
          assert OptionKey(live[0]) != OptionKey(live[j + 1]);
        }
      }
      forall key' ensures key' in m <==> key' in strings || RoutesTo(live, filters, fields, key') {
        if RoutesTo(rest, filters, fields, key') {
          var k :| 0 <= k < |rest| && OptionKey(rest[k]) == key' && Routed(rest[k], filters, fields);
          assert live[k + 1] == rest[k];
        }
        if RoutesTo(live, filters, fields, key') {
          var k :| 0 <= k < |live| && OptionKey(live[k]) == key' && Routed(live[k], filters, fields);
          if k > 0 {
            assert live[k] == rest[k - 1];
          }
        }
      }
      forall k | 0 <= k < |live| && Routed(live[k], filters, fields) ensures m[OptionKey(live[k])] == live[k].value {
        if k > 0 {
          assert live[k] == rest[k - 1];
        }
      }
      forall key' | key' in strings && !KeyUsed(live, key') ensures m[key'] == strings[key'] {
        assert OptionKey(live[0]) != key';
        assert !KeyUsed(rest, key') by {
          forall j | 0 <= j < |rest| ensures OptionKey(rest[j]) != key' {
            assert rest[j] == live[j + 1];
          }
        }
      }
    }
  }

  /**
   * The whole option loop: it succeeds exactly when the live options have
   * distinct keys and are all accepted, and then the text search set maps
   * each routed option's key (-1 for the general term) to its value.
   */
  lemma OptionsOutcome(options: seq<SearchOption>, filters: map<int, Filter>, fields: map<int, FieldInfo>)
    ensures var r := Scan(options, filters, fields, {}, map[]);
      var live := Live(options);
      && (r.Done? <==> DistinctOptionKeys(live) && AllAccepted(live, filters, fields, {}))
      && (r.Done? ==>
        && (forall key :: key in r.value <==> RoutesTo(live, filters, fields, key))
        && (forall k :: 0 <= k < |live| && Routed(live[k], filters, fields) ==> r.value[OptionKey(live[k])] == live[k].value))
  {
    EmptyOptionsIgnored(options, filters, fields, {}, map[]);
    var live := Live(options);
    assert forall k :: 0 <= k < |live| ==> !PhpEmpty(live[k].value) by {
      forall k | 0 <= k < |live| ensures !PhpEmpty(live[k].value) {
        assert live[k] in live;
      }
    }
    ScanDone(live, filters, fields, {}, map[]);
    if Scan(live, filters, fields, {}, map[]).Done? {
      ScanValue(live, filters, fields, {}, map[]);
    }
  }

  /**
   * The duplicate check comes before the filter lookup: a filter id of -1
   * after the general term is reported as a duplicate, although no
   * filter has that id.
   */
  lemma DuplicateBeforeUnknown(filters: map<int, Filter>, fields: map<int, FieldInfo>)
    requires GeneralKey !in filters
    ensures Scan([SearchOption(None, Str("boat")), SearchOption(Some(GeneralKey), Str("sail"))], filters, fields, {}, map[])
      == Thrown(DuplicateSearchGroupFilter)
  {
    var options := [SearchOption(None, Str("boat")), SearchOption(Some(GeneralKey), Str("sail"))];
    assert options[1..] == [SearchOption(Some(GeneralKey), Str("sail"))];
    assert options[1..][1..] == [];
  }

  /** `$filters[$filter->id] = $filter` over the group's filters. */
  method IndexFilters(list: seq<Filter>) returns (filters: map<int, Filter>)
    ensures filters == FilterIndex(list)
  {
    filters := map[];
    var i := 0;
    while i < |list|
      invariant 0 <= i <= |list|
      invariant filters == FilterIndex(list[..i])
    {
      assert list[..i + 1][..i] == list[..i];
      filters := filters[list[i].id := list[i]];
      i := i + 1;
    }
    assert list[..|list|] == list;
  }

  /** The parts of `Scan`'s state the loop body needs. */
  lemma ScanStep(options: seq<SearchOption>, i: int, filters: map<int, Filter>, fields: map<int, FieldInfo>,
                 checked: set<int>, strings: map<int, Value>)
    requires 0 <= i < |options|
    ensures var o := options[i];
      Scan(options[i..], filters, fields, checked, strings) ==
        if PhpEmpty(o.value) then Scan(options[i + 1..], filters, fields, checked, strings)
        else if OptionKey(o) in checked then Thrown(DuplicateSearchGroupFilter)
        else if o.filter.None? then Scan(options[i + 1..], filters, fields, checked + {GeneralKey}, strings[GeneralKey := o.value])
        else if o.filter.value !in filters then Thrown(FilterNotFound(o.filter.value))
        else match FilterOutcome(filters[o.filter.value], o.value, fields)
          case Thrown(e) => Thrown(e)
          case Done(text) =>
            Scan(options[i + 1..], filters, fields, checked + {o.filter.value}, if text then strings[o.filter.value := o.value] else strings)
  {
    assert options[i..][1..] == options[i + 1..];
  }

  /** The filter target `doSearch` hands the handler for an option, when the option reaches one. */
  function OptionTarget(o: SearchOption, filters: map<int, Filter>, fields: map<int, FieldInfo>,
                        siteId: int): Option<(FieldType, FilterTarget)>
  {
    if PhpEmpty(o.value) || o.filter.None? || o.filter.value !in filters then None
    else FilterTargetOf(filters[o.filter.value], fields, siteId)
  }

  /** The field class and the target the event for a filter names, when the filter is on a known field. */
  function FilterTargetOf(f: Filter, fields: map<int, FieldInfo>, siteId: int): Option<(FieldType, FilterTarget)>
  {
    if !OnField(f) || f.fieldId.value !in fields then None
    else
      var field := fields[f.fieldId.value];
      Some((field.fieldType, FilterTarget(f.id, f.fieldId.value, field.handle, siteId)))
  }

  /** The joins the handlers add to the filter query for these options, in order. */
  function QueryJoins(options: seq<SearchOption>, filters: map<int, Filter>, fields: map<int, FieldInfo>,
                      siteId: int): seq<Join>
  {
    if options == [] then []
    else
      var o := options[|options| - 1];
      var t := OptionTarget(o, filters, fields, siteId);
      QueryJoins(options[..|options| - 1], filters, fields, siteId)
        + (if t.Some? then HandlerJoins(t.value.0, t.value.1, o.value) else [])
  }

  /** The conditions the handlers append to the filter query for these options, in order. */
  function QueryConditions(options: seq<SearchOption>, filters: map<int, Filter>, fields: map<int, FieldInfo>,
                           siteId: int): seq<Condition>
  {
    if options == [] then []
    else
      var o := options[|options| - 1];
      var t := OptionTarget(o, filters, fields, siteId);
      QueryConditions(options[..|options| - 1], filters, fields, siteId)
        + (if t.Some? then HandlerConditions(t.value.0, t.value.1, o.value) else [])
  }

  /** Appending in two steps is appending once. */
  lemma Appended<X>(a: seq<X>, b: seq<X>, c: seq<X>)
    ensures (a + b) + c == a + (b + c)
  {
  }

  /** One more option adds what its handler adds, if it reaches one. */
  lemma QueryStep(options: seq<SearchOption>, i: int, filters: map<int, Filter>, fields: map<int, FieldInfo>, siteId: int)
    requires 0 <= i < |options|
    ensures var t := OptionTarget(options[i], filters, fields, siteId);
      && QueryJoins(options[..i + 1], filters, fields, siteId)
         == QueryJoins(options[..i], filters, fields, siteId) + (if t.Some? then HandlerJoins(t.value.0, t.value.1, options[i].value) else [])
      && QueryConditions(options[..i + 1], filters, fields, siteId)
         == QueryConditions(options[..i], filters, fields, siteId) + (if t.Some? then HandlerConditions(t.value.0, t.value.1, options[i].value) else [])
  {
    assert options[..i + 1][..i] == options[..i];
  }

  /**
   * The body of the option loop for a filter's value: the event goes to
   * the handler bound to the filter's field class, which may change the
   * query, mark the value for the text search, or fail.
   */
  method ApplyFilter(f: Filter, value: Value, fields: map<int, FieldInfo>, siteId: int, query: FilterQuery)
    returns (r: Outcome<bool, SearchError>)
    modifies query
    ensures r == FilterOutcome(f, value, fields)
    ensures r.Done? ==>
      var t := FilterTargetOf(f, fields, siteId);
      && t.Some?
      && query.joins == old(query.joins) + HandlerJoins(t.value.0, t.value.1, value)
      && query.conditions == old(query.conditions) + HandlerConditions(t.value.0, t.value.1, value)
  {
    if !OnField(f) {
      // The element types' attribute handlers leave the event as it is,
      // and the missing-handler message then looks up the absent field.
      return Thrown(AttributeFieldLookupFailed(f.fieldId));
    }
    if f.fieldId.value !in fields {
      return Thrown(FieldNotFound(f.fieldId.value));
    }
    var field := fields[f.fieldId.value];
    var e := new ModifyFilterQuery(query, FilterTarget(f.id, f.fieldId.value, field.handle, siteId), value);
    var error := ModifyFieldFilterQuery(e, field.fieldType);
    if error.Some? {
      return Thrown(FilterHandlerFailed(error.value));
    }
    if !e.handled {
      return Thrown(NoModifyFilterQueryHandler);
    }
    r := Done(e.textSearch);
  }

  /**
   * The option loop of `doSearch`: empty options are skipped, every key is
   * checked once, each filter value is handed to its field's handler on
   * the shared filter query, and text values are collected by key.
   */
  method ApplyOptions(options: seq<SearchOption>, filters: map<int, Filter>, fields: map<int, FieldInfo>,
                      siteId: int, query: FilterQuery) returns (r: Outcome<map<int, Value>, SearchError>)
    modifies query
    ensures r == Scan(options, filters, fields, {}, map[])
    ensures r.Done? ==>
      && query.joins == old(query.joins) + QueryJoins(options, filters, fields, siteId)
      && query.conditions == old(query.conditions) + QueryConditions(options, filters, fields, siteId)
  {
    var checked: set<int> := {};
    var strings: map<int, Value> := map[];
    var i := 0;
    while i < |options|
      invariant 0 <= i <= |options|
      invariant Scan(options, filters, fields, {}, map[]) == Scan(options[i..], filters, fields, checked, strings)
      invariant query.joins == old(query.joins) + QueryJoins(options[..i], filters, fields, siteId)
      invariant query.conditions == old(query.conditions) + QueryConditions(options[..i], filters, fields, siteId)
    {
      var o := options[i];
      QueryStep(options, i, filters, fields, siteId);
      ScanStep(options, i, filters, fields, checked, strings);
      if PhpEmpty(o.value) {
        i := i + 1;
        continue;
      }
      if o.filter.None? {
        if GeneralKey in checked {
          return Thrown(DuplicateSearchGroupFilter);
        }
        checked := checked + {GeneralKey};
        strings := strings[GeneralKey := o.value];
      } else {
        var id := o.filter.value;
        if id in checked {
          return Thrown(DuplicateSearchGroupFilter);
        }
        checked := checked + {id};
        if id !in filters {
          return Thrown(FilterNotFound(id));
        }
        var handled := ApplyFilter(filters[id], o.value, fields, siteId, query);
        if handled.Thrown? {
          return Thrown(handled.error);
        }
        ghost var t := OptionTarget(o, filters, fields, siteId).value;
        Appended(old(query.joins), QueryJoins(options[..i], filters, fields, siteId), HandlerJoins(t.0, t.1, o.value));
        Appended(old(query.conditions), QueryConditions(options[..i], filters, fields, siteId), HandlerConditions(t.0, t.1, o.value));
        if handled.value {
          strings := strings[id := o.value];
        }
      }
      i := i + 1;
    }
    assert options[..i] == options;
    r := Done(strings);
  }

  // ---------------------------------------------------------------------
  // Page rows, buckets and elements

  /** A row of the element query: the element's id and class. */
  datatype Row = Row(id: int, elementType: string)

  /** A page entry: the element a handler loaded, or the query row when none did. */
  datatype Hit<E> = Loaded(element: E) | Unloaded(row: Row)


  /** The position of the bucket for `elementType`, or `|buckets|` when there is none yet. */
  function BucketOf(buckets: seq<(string, seq<int>)>, elementType: string): (k: nat)
    ensures k <= |buckets|
    ensures k < |buckets| ==> buckets[k].0 == elementType
    ensures forall j :: 0 <= j < k ==> buckets[j].0 != elementType
  {
    if buckets == [] then 0
    else if buckets[0].0 == elementType then 0
    else 1 + BucketOf(buckets[1..], elementType)
  }

  /** `$elementTypeIndex[$type][] = $id`: a new bucket at the end for a type not seen before. */
  function AddToBucket(buckets: seq<(string, seq<int>)>, row: Row): seq<(string, seq<int>)>
  {
    var k := BucketOf(buckets, row.elementType);
    if k == |buckets| then buckets + [(row.elementType, [row.id])]
    else buckets[k := (buckets[k].0, buckets[k].1 + [row.id])]
  }

  /** The buckets after indexing `rows` in order. */
  function Bucketed(rows: seq<Row>): seq<(string, seq<int>)>
    decreases |rows|
  {
    if rows == [] then [] else AddToBucket(Bucketed(rows[..|rows| - 1]), rows[|rows| - 1])
  }

  /** The ids of the rows of one type, in row order. */
  function IdsOfType(rows: seq<Row>, elementType: string): (r: seq<int>)
    ensures |r| <= |rows|
    decreases |rows|
  {
    if rows == [] then []
    else
      var last := rows[|rows| - 1];
      IdsOfType(rows[..|rows| - 1], elementType) + (if last.elementType == elementType then [last.id] else [])
  }

  /** Some bucket is for type `t`. */
  predicate HasBucket(buckets: seq<(string, seq<int>)>, t: string)
  {
    exists k :: 0 <= k < |buckets| && buckets[k].0 == t
  }

  /** Some row has type `t`. */
  predicate HasRowOfType(rows: seq<Row>, t: string)
  {
    exists k :: 0 <= k < |rows| && rows[k].elementType == t
  }

  /** No two buckets are for the same type. */
  predicate DistinctTypes(buckets: seq<(string, seq<int>)>)
  {
    forall i, j :: 0 <= i < j < |buckets| ==> buckets[i].0 != buckets[j].0
  }

  /** Adding a row keeps the types apart and adds the row's type. */
  lemma AddToBucketTypes(buckets: seq<(string, seq<int>)>, row: Row)
    requires DistinctTypes(buckets)
    ensures DistinctTypes(AddToBucket(buckets, row))
    ensures forall t :: HasBucket(AddToBucket(buckets, row), t) <==> HasBucket(buckets, t) || t == row.elementType
  {
    var after := AddToBucket(buckets, row);
    var k := BucketOf(buckets, row.elementType);
    forall t ensures HasBucket(after, t) <==> HasBucket(buckets, t) || t == row.elementType {
      if HasBucket(buckets, t) {
        var j :| 0 <= j < |buckets| && buckets[j].0 == t;
        assert after[j].0 == t;
      }
      if t == row.elementType {
        assert after[k].0 == t;
      }
    }
  }

  /** Bucketing keeps one bucket per type, for exactly the types of the rows. */
  lemma {:induction false} BucketedTypes(rows: seq<Row>)
    ensures DistinctTypes(Bucketed(rows))
    ensures forall t :: HasBucket(Bucketed(rows), t) <==> HasRowOfType(rows, t)
    decreases |rows|
  {
    if rows != [] {
      var init := rows[..|rows| - 1];
      BucketedTypes(init);
      AddToBucketTypes(Bucketed(init), rows[|rows| - 1]);
      forall t ensures HasRowOfType(rows, t) <==> HasRowOfType(init, t) || t == rows[|rows| - 1].elementType {
        if HasRowOfType(init, t) {
          var j :| 0 <= j < |init| && init[j].elementType == t;
          assert rows[j] == init[j];
        }
        if HasRowOfType(rows, t) {
          var j :| 0 <= j < |rows| && rows[j].elementType == t;
          if j < |init| {
            assert init[j] == rows[j];
          }
        }
      }
    }
  }

  /** A type no row has lists no ids. */
  lemma {:induction false} IdsOfAbsentType(rows: seq<Row>, t: string)
    requires !HasRowOfType(rows, t)
    ensures IdsOfType(rows, t) == []
    decreases |rows|
  {
    if rows != [] {
      var init := rows[..|rows| - 1];
      assert !HasRowOfType(init, t) by {
        forall j | 0 <= j < |init| ensures init[j].elementType != t {
          assert init[j] == rows[j];
        }
      }
      IdsOfAbsentType(init, t);
    }
  }

  /** Each bucket lists the ids of its type's rows, in row order. */
  lemma {:induction false} BucketedIds(rows: seq<Row>)
    ensures forall k :: 0 <= k < |Bucketed(rows)| ==> Bucketed(rows)[k].1 == IdsOfType(rows, Bucketed(rows)[k].0)
    decreases |rows|
  {
    if rows != [] {
      var init := rows[..|rows| - 1];
      var last := rows[|rows| - 1];
      BucketedIds(init);
      BucketedTypes(init);
      var before := Bucketed(init);
      var after := Bucketed(rows);
      var k := BucketOf(before, last.elementType);
      forall j | 0 <= j < |after| ensures after[j].1 == IdsOfType(rows, after[j].0) {
        assert IdsOfType(rows, after[j].0) == IdsOfType(init, after[j].0) + (if last.elementType == after[j].0 then [last.id] else []);
        if j == |before| {
          assert !HasBucket(before, last.elementType);
          IdsOfAbsentType(init, last.elementType);
        } else if j != k {
          assert after[j] == before[j];
        }
      }
    }
  }

  /** `$elementIndex[$id] = $row` over the rows: each id maps to its last row. */
  function RowIndex<E>(rows: seq<Row>): (r: map<int, Hit<E>>)
    ensures forall k :: 0 <= k < |rows| ==> rows[k].id in r
    ensures forall id :: id in r ==> r[id].Unloaded? && r[id].row in rows && r[id].row.id == id
    decreases |rows|
  {
    if rows == [] then map[]
    else
      var init := rows[..|rows| - 1];
      var last := rows[|rows| - 1];
      var before := RowIndex<E>(init);
      assert forall k :: 0 <= k < |init| ==> rows[k] == init[k];
      before[last.id := Unloaded(last)]
  }

  /**
   * The loop over the page rows that indexes them by id and collects the
   * ids of each element type.
   */
  method IndexRows<E>(rows: seq<Row>) returns (index: map<int, Hit<E>>, buckets: seq<(string, seq<int>)>)
    ensures index == RowIndex<E>(rows) && buckets == Bucketed(rows)
  {
    index := map[];
    buckets := [];
    var i := 0;
    while i < |rows|
      invariant 0 <= i <= |rows|
      invariant index == RowIndex<E>(rows[..i]) && buckets == Bucketed(rows[..i])
    {
      assert rows[..i + 1][..i] == rows[..i];
      index := index[rows[i].id := Unloaded(rows[i])];
      buckets := AddToBucket(buckets, rows[i]);
      i := i + 1;
    }
    assert rows[..|rows|] == rows;
  }

  /** A "get elements" handler: the elements of the given ids on the given site, keyed by id. */
  type ElementsHandler<E> = (seq<int>, int) -> map<int, E>

  /** `$elementIndex[$id] = $element` for every element a handler returned. */
  function Overlay<E>(index: map<int, Hit<E>>, loaded: map<int, E>): (r: map<int, Hit<E>>)
    ensures r.Keys == index.Keys + loaded.Keys
    ensures forall id :: id in loaded ==> r[id] == Loaded(loaded[id])
    ensures forall id :: id in index && id !in loaded ==> r[id] == index[id]
  {
    map id | id in index.Keys + loaded.Keys :: if id in loaded then Loaded(loaded[id]) else index[id]
  }

  /** The element loading loop over the buckets, in order: a type without a handler ends the search. */
  function LoadAll<E>(buckets: seq<(string, seq<int>)>, handlers: map<string, ElementsHandler<E>>, siteId: int,
                      index: map<int, Hit<E>>): (r: Outcome<map<int, Hit<E>>, SearchError>)
    ensures r.Done? <==> forall k :: 0 <= k < |buckets| ==> buckets[k].0 in handlers
    ensures r.Done? ==> index.Keys <= r.value.Keys
    ensures r.Thrown? ==> exists k :: 0 <= k < |buckets| && buckets[k].0 !in handlers && r.error == NoGetElementsHandler(buckets[k].0)
    decreases |buckets|
  {
    if buckets == [] then Done(index)
    else if buckets[0].0 !in handlers then Thrown(NoGetElementsHandler(buckets[0].0))
    else LoadAll(buckets[1..], handlers, siteId, Overlay(index, handlers[buckets[0].0](buckets[0].1, siteId)))
  }

  /** Loads the elements of each bucket through the handler of its type. */
  method LoadElements<E>(buckets: seq<(string, seq<int>)>, handlers: map<string, ElementsHandler<E>>, siteId: int,
                         index0: map<int, Hit<E>>) returns (r: Outcome<map<int, Hit<E>>, SearchError>)
    ensures r == LoadAll(buckets, handlers, siteId, index0)
  {
    var index := index0;
    var i := 0;
    while i < |buckets|
      invariant 0 <= i <= |buckets|
      invariant LoadAll(buckets, handlers, siteId, index0) == LoadAll(buckets[i..], handlers, siteId, index)
    {
      assert buckets[i..][1..] == buckets[i + 1..];
      var (elementType, ids) := buckets[i];
      if elementType !in handlers {
        return Thrown(NoGetElementsHandler(elementType));
      }
      var loaded := handlers[elementType](ids, siteId);
      index := Overlay(index, loaded);
      i := i + 1;
    }
    return Done(index);
  }

  /** `$results[$key] = $elementIndex[$result['id']]`: each row replaced in place by its entry. */
  method ReplaceRows<E>(rows: seq<Row>, index: map<int, Hit<E>>) returns (results: seq<Hit<E>>)
    requires forall k :: 0 <= k < |rows| ==> rows[k].id in index
    ensures |results| == |rows|
    ensures forall k :: 0 <= k < |rows| ==> results[k] == index[rows[k].id]
  {
    results := seq(|rows|, k requires 0 <= k < |rows| => Unloaded(rows[k]));
    var k := 0;
    while k < |rows|
      invariant 0 <= k <= |rows| && |results| == |rows|
      invariant forall j :: 0 <= j < k ==> results[j] == index[rows[j].id]
    {
      results := results[k := index[rows[k].id]];
      k := k + 1;
    }
  }

  /** Handlers that return only elements they were asked for. */
  ghost predicate Faithful<E>(buckets: seq<(string, seq<int>)>, handlers: map<string, ElementsHandler<E>>, siteId: int)
  {
    forall k :: 0 <= k < |buckets| && buckets[k].0 in handlers ==>
      forall id :: id in handlers[buckets[k].0](buckets[k].1, siteId) ==> id in buckets[k].1
  }

  /** Every row of an element has that element's type. */
  predicate OneTypePerId(rows: seq<Row>)
  {
    forall i, j :: 0 <= i < |rows| && 0 <= j < |rows| && rows[i].id == rows[j].id ==> rows[i].elementType == rows[j].elementType
  }

  /** An id of a row is in the bucket of that row's type and in no other. */
  lemma IdInOwnBucketOnly(rows: seq<Row>, k: int, j: int)
    requires 0 <= k < |rows| && 0 <= j < |Bucketed(rows)| && OneTypePerId(rows)
    ensures rows[k].id in Bucketed(rows)[j].1 <==> Bucketed(rows)[j].0 == rows[k].elementType
  {
    BucketedIds(rows);
    var b := Bucketed(rows)[j];
    IdsOfTypeMembers(rows, b.0, rows[k].id);
    if b.0 == rows[k].elementType {
      assert rows[k].id in IdsOfType(rows, b.0);
    }
  }

  /** An id is listed for a type exactly when a row of that type carries it. */
  lemma {:induction false} IdsOfTypeMembers(rows: seq<Row>, t: string, id: int)
    ensures id in IdsOfType(rows, t) <==> exists k :: 0 <= k < |rows| && rows[k].id == id && rows[k].elementType == t
    decreases |rows|
  {
    if rows != [] {
      var init := rows[..|rows| - 1];
      IdsOfTypeMembers(init, t, id);
      if exists k :: 0 <= k < |init| && init[k].id == id && init[k].elementType == t {
        var k :| 0 <= k < |init| && init[k].id == id && init[k].elementType == t;
        assert rows[k] == init[k];
      }
      if exists k :: 0 <= k < |rows| && rows[k].id == id && rows[k].elementType == t {
        var k :| 0 <= k < |rows| && rows[k].id == id && rows[k].elementType == t;
        if k < |init| {
          assert init[k] == rows[k];
        }
      }
    }
  }

  /**
   * The entry a loading pass leaves for an id: the element the handler
   * of the id's bucket returned, if any, else the entry it had before.
   */
  lemma {:induction false} LoadAllEntry<E>(buckets: seq<(string, seq<int>)>, handlers: map<string, ElementsHandler<E>>,
                                           siteId: int, index: map<int, Hit<E>>, id: int, b: int)
    requires LoadAll(buckets, handlers, siteId, index).Done?
    requires Faithful(buckets, handlers, siteId) && id in index
    requires 0 <= b < |buckets| && id in buckets[b].1
    requires forall j :: 0 <= j < |buckets| && j != b ==> id !in buckets[j].1
    ensures var loaded := handlers[buckets[b].0](buckets[b].1, siteId);
      LoadAll(buckets, handlers, siteId, index).value[id] == if id in loaded then Loaded(loaded[id]) else index[id]
    decreases |buckets|
  {
    var loaded0 := handlers[buckets[0].0](buckets[0].1, siteId);
    var next := Overlay(index, loaded0);
    var rest := buckets[1..];
    forall k | 0 <= k < |rest| && rest[k].0 in handlers
      ensures forall i :: i in handlers[rest[k].0](rest[k].1, siteId) ==> i in rest[k].1
    {
      assert rest[k] == buckets[k + 1];
    }
    if b == 0 {
      LoadAllUntouched(rest, handlers, siteId, next, id);
    } else {
      assert id !in loaded0;
      forall j | 0 <= j < |rest| && j != b - 1 ensures id !in rest[j].1 {
        assert rest[j] == buckets[j + 1];
      }
      LoadAllEntry(rest, handlers, siteId, next, id, b - 1);
    }
  }

  /** An id in no bucket keeps its entry. */
  lemma {:induction false} LoadAllUntouched<E>(buckets: seq<(string, seq<int>)>, handlers: map<string, ElementsHandler<E>>,
                                               siteId: int, index: map<int, Hit<E>>, id: int)
    requires LoadAll(buckets, handlers, siteId, index).Done?
    requires Faithful(buckets, handlers, siteId) && id in index
    requires forall j :: 0 <= j < |buckets| ==> id !in buckets[j].1
    ensures id in LoadAll(buckets, handlers, siteId, index).value
    ensures LoadAll(buckets, handlers, siteId, index).value[id] == index[id]
    decreases |buckets|
  {
    if buckets != [] {
      var loaded0 := handlers[buckets[0].0](buckets[0].1, siteId);
      var rest := buckets[1..];
      forall k | 0 <= k < |rest| && rest[k].0 in handlers
        ensures forall i :: i in handlers[rest[k].0](rest[k].1, siteId) ==> i in rest[k].1
      {
        assert rest[k] == buckets[k + 1];
      }
      forall j | 0 <= j < |rest| ensures id !in rest[j].1 {
        assert rest[j] == buckets[j + 1];
      }
      LoadAllUntouched(rest, handlers, siteId, Overlay(index, loaded0), id);
    }
  }

  // ---------------------------------------------------------------------
  // Pagination

  /** `ceil($a / $b)`. */
  function CeilDiv(a: int, b: int): (r: int)
    requires b != 0
    ensures b > 0 ==> (r - 1) * b < a <= r * b
  {
    if b > 0 then -((-a) / b)
    else -((-a) / b) + (if (-a) % b != 0 then 1 else 0)
  }

  /** The page record `doSearch` returns, without the query time. */
  datatype Pagination = Pagination(
    totalElements: int, totalPages: int, firstElement: int, lastElement: int,
    currentPage: int, previousPage: Option<int>, nextPage: Option<int>, pageSize: int)

  /** The page record for `total` results, a page of `count` rows, page size and page number. */
  function Paginate(total: int, pageSize: int, page: int, count: int): (p: Pagination)
    requires pageSize != 0
    ensures p.totalElements == total && p.currentPage == page && p.pageSize == pageSize
  {
    var offset := pageSize * (page - 1);
    var totalPages := CeilDiv(total, pageSize);
    Pagination(total, totalPages, offset + 1, offset + count, page,
               if page - 1 > 0 then Some(page - 1) else None,
               if page + 1 <= totalPages then Some(page + 1) else None,
               pageSize)
  }

  /**
   * For a positive page size and a page of the result window: the page
   * covers results `pageSize·(page−1)+1` to `min(pageSize·page, total)`,
   * the page count is the fewest pages that hold every result, there is a
   * previous page exactly from page 2 on, and a next page exactly when
   * this page ends before the last result.
   */
  lemma PaginationSound(all: seq<Row>, pageSize: int, page: int)
    requires pageSize > 0 && page >= 1
    requires pageSize * (page - 1) <= |all|
    ensures var rows := Window(all, pageSize * (page - 1), pageSize);
      var p := Paginate(|all|, pageSize, page, |rows|);
      && p.firstElement == pageSize * (page - 1) + 1
      && p.lastElement == Min(pageSize * page, |all|)
      && (p.totalPages - 1) * pageSize < |all| <= p.totalPages * pageSize
      && (p.previousPage.Some? <==> page >= 2) && (p.previousPage.Some? ==> p.previousPage.value == page - 1)
      && (p.nextPage.Some? <==> p.lastElement < |all|) && (p.nextPage.Some? ==> p.nextPage.value == page + 1)
  {
    var total := |all|;
    var offset := pageSize * (page - 1);
    var rows := Window(all, offset, pageSize);
    var p := Paginate(total, pageSize, page, |rows|);
    assert offset + pageSize == pageSize * page by {
      assert pageSize * (page - 1) == pageSize * page - pageSize;
    }
    assert p.lastElement == Min(pageSize * page, total);
    NextPageIff(p.totalPages, pageSize, page, total);
  }

  /** With `t` the fewest pages of `pageSize` holding `total` results, page `page` has a successor exactly when it ends before the last result. */
  lemma NextPageIff(t: int, pageSize: int, page: int, total: int)
    requires pageSize > 0 && (t - 1) * pageSize < total <= t * pageSize
    ensures page + 1 <= t <==> pageSize * page < total
  {
    if page + 1 <= t {
      MulMonotone(page, t - 1, pageSize);
    } else {
      MulMonotone(t, page, pageSize);
    }
  }

  lemma MulMonotone(a: int, b: int, c: int)
    requires a <= b && c >= 0
    ensures a * c <= b * c
  {
    assert b * c - a * c == (b - a) * c;
  }

  // ---------------------------------------------------------------------
  // The search

  /** What the database is asked: the site, the element types, the text searches and the filter query. */
  datatype SearchQuery = SearchQuery(
    siteId: int, elements: seq<Element>, textSearch: map<int, Value>,
    joins: seq<Join>, conditions: seq<Condition>, searchOrder: string)

  /** The database and the element handlers a search relies on. */
  datatype SearchDb<E> = SearchDb(
    /** Every row matching a query, in the database's order (relevance or the group's sort order). */
    rows: SearchQuery -> seq<Row>,
    /** The "get elements" handler registered for each element class. */
    handlers: map<string, ElementsHandler<E>>,
    /**
     * The element classes with an "extend element type query" handler
     * (the plugin binds one to assets, categories, entries, tags and
     * users; another plugin may bind more).
     */
    extendTypes: set<string>)

  datatype SearchResult<E> = SearchResult(page: Pagination, elements: seq<Hit<E>>)

  /**
   * What follows the database query: the page window of `all`, its
   * elements loaded type by type, the rows replaced in place and the page
   * record. A missing "get elements" handler ends the search before the
   * page count is divided out.
   */
  function Finish<E>(all: seq<Row>, g: Group, page: int, handlers: map<string, ElementsHandler<E>>): Outcome<SearchResult<E>, SearchError>
  {
    var rows := PageRows(all, g, page);
    match LoadAll(Bucketed(rows), handlers, g.siteId, RowIndex<E>(rows))
    case Thrown(e) => Thrown(e)
    case Done(index) =>
      if g.pageSize == 0 then Thrown(DivisionByZero)
      else Done(SearchResult(Paginate(|all|, g.pageSize, page, |rows|), seq(|rows|, k requires 0 <= k < |rows| => index[rows[k].id])))
  }

  /** The rows of the requested page. */
  function PageRows(all: seq<Row>, g: Group, page: int): seq<Row>
  {
    Window(all, g.pageSize * (page - 1), g.pageSize)
  }

  /**
   * Loading fails exactly when a row on the page has a type without a
   * "get elements" handler, whatever the page size.
   */
  lemma FinishNeedsHandlers<E>(all: seq<Row>, g: Group, page: int, handlers: map<string, ElementsHandler<E>>)
    ensures var rows := PageRows(all, g, page);
      (exists k :: 0 <= k < |rows| && rows[k].elementType !in handlers)
      <==> Finish(all, g, page, handlers).Thrown? && Finish(all, g, page, handlers).error.NoGetElementsHandler?
  {
    var rows := PageRows(all, g, page);
    BucketsCovered(rows, handlers);
    var loaded := LoadAll(Bucketed(rows), handlers, g.siteId, RowIndex<E>(rows));
    var r := Finish(all, g, page, handlers);
    if loaded.Thrown? {
      assert r == Thrown(loaded.error);
    } else {
      assert r.Thrown? ==> r.error == DivisionByZero;
    }
  }

  /** Every bucket's type has a handler. */
  predicate BucketsHandled<T>(buckets: seq<(string, seq<int>)>, handlers: map<string, T>)
  {
    forall j :: 0 <= j < |buckets| ==> buckets[j].0 in handlers
  }

  /** Every row's type has a handler. */
  predicate RowsHandled<T>(rows: seq<Row>, handlers: map<string, T>)
  {
    forall k :: 0 <= k < |rows| ==> rows[k].elementType in handlers
  }

  /** Every bucket's type has a handler exactly when every row's type has one. */
  lemma BucketsCovered<T>(rows: seq<Row>, handlers: map<string, T>)
    ensures BucketsHandled(Bucketed(rows), handlers) <==> RowsHandled(rows, handlers)
  {
    var buckets := Bucketed(rows);
    BucketedTypes(rows);
    if BucketsHandled(buckets, handlers) {
      forall k | 0 <= k < |rows| ensures rows[k].elementType in handlers {
        assert HasRowOfType(rows, rows[k].elementType);
        assert HasBucket(buckets, rows[k].elementType);
        var j :| 0 <= j < |buckets| && buckets[j].0 == rows[k].elementType;
      }
    }
    if RowsHandled(rows, handlers) {
      forall j | 0 <= j < |buckets| ensures buckets[j].0 in handlers {
        assert HasBucket(buckets, buckets[j].0);
        var k :| 0 <= k < |rows| && rows[k].elementType == buckets[j].0;
      }
    }
  }

  /**
   * With handlers that return only elements they were asked for: the
   * page entries follow the page rows one to one and in order, each
   * being the element the handler of the row's type returned for the
   * row's id, or the row itself when that handler returned none. The
   * handler of a type is asked for the ids of that type's rows.
   */
  lemma FinishElements<E>(all: seq<Row>, g: Group, page: int, handlers: map<string, ElementsHandler<E>>)
    requires Finish(all, g, page, handlers).Done?
    requires OneTypePerId(PageRows(all, g, page)) && Faithful(Bucketed(PageRows(all, g, page)), handlers, g.siteId)
    ensures var rows := PageRows(all, g, page);
      var elements := Finish(all, g, page, handlers).value.elements;
      && |elements| == |rows|
      && forall k :: 0 <= k < |rows| ==>
        && rows[k].elementType in handlers
        && var loaded := handlers[rows[k].elementType](IdsOfType(rows, rows[k].elementType), g.siteId);
          elements[k] == if rows[k].id in loaded then Loaded(loaded[rows[k].id]) else Unloaded(rows[k])
  {
    var rows := PageRows(all, g, page);
    var buckets := Bucketed(rows);
    var index := RowIndex<E>(rows);
    BucketedTypes(rows);
    BucketedIds(rows);
    forall k | 0 <= k < |rows|
      ensures rows[k].elementType in handlers
      ensures var loaded := handlers[rows[k].elementType](IdsOfType(rows, rows[k].elementType), g.siteId);
        LoadAll(buckets, handlers, g.siteId, index).value[rows[k].id]
          == if rows[k].id in loaded then Loaded(loaded[rows[k].id]) else Unloaded(rows[k])
    {
      var t := rows[k].elementType;
      assert HasRowOfType(rows, t);
      var j :| 0 <= j < |buckets| && buckets[j].0 == t;
      IdInOwnBucketOnly(rows, k, j);
      forall i | 0 <= i < |buckets| && i != j ensures rows[k].id !in buckets[i].1 {
        IdInOwnBucketOnly(rows, k, i);
      }
      var r := index[rows[k].id].row;
      assert r in rows;
      assert r == rows[k];
      LoadAllEntry(buckets, handlers, g.siteId, index, rows[k].id, j);
    }
  }

  /** `$filters` keyed by id, a later filter replacing an earlier one with the same id. */
  function FilterIndex(list: seq<Filter>): (r: map<int, Filter>)
    ensures forall f :: f in list ==> f.id in r
    ensures forall id :: id in r ==> r[id] in list && r[id].id == id
    decreases |list|
  {
    if list == [] then map[]
    else
      var init := list[..|list| - 1];
      assert forall f :: f in init ==> f in list;
      FilterIndex(init)[list[|list| - 1].id := list[|list| - 1]]
  }

  /**
   * The type of the first search element whose "extend element type
   * query" event no handler answers, if any.
   */
  function Unextended(searchElements: seq<Element>, extendTypes: set<string>): Option<string>
    decreases |searchElements|
  {
    if searchElements == [] then None
    else if searchElements[0].elementType !in extendTypes then Some(searchElements[0].elementType)
    else Unextended(searchElements[1..], extendTypes)
  }

  /**
   * No type is reported exactly when every search element's type has a
   * handler; a reported type is that of a search element without one,
   * all earlier search elements having one.
   */
  lemma {:induction false} UnextendedFirst(searchElements: seq<Element>, extendTypes: set<string>)
    ensures Unextended(searchElements, extendTypes).None?
      <==> forall k :: 0 <= k < |searchElements| ==> searchElements[k].elementType in extendTypes
    ensures Unextended(searchElements, extendTypes).Some? ==>
      exists i :: 0 <= i < |searchElements|
        && searchElements[i].elementType == Unextended(searchElements, extendTypes).value
        && searchElements[i].elementType !in extendTypes
        && forall k :: 0 <= k < i ==> searchElements[k].elementType in extendTypes
    decreases |searchElements|
  {
    if searchElements != [] && searchElements[0].elementType in extendTypes {
      var rest := searchElements[1..];
      UnextendedFirst(rest, extendTypes);
      if Unextended(rest, extendTypes).Some? {
        var i :| 0 <= i < |rest| && rest[i].elementType == Unextended(rest, extendTypes).value
          && rest[i].elementType !in extendTypes
          && forall k :: 0 <= k < i ==> rest[k].elementType in extendTypes;
        assert searchElements[i + 1] == rest[i];
        forall k | 0 <= k < i + 1 ensures searchElements[k].elementType in extendTypes {
          if k > 0 {
            assert searchElements[k] == rest[k - 1];
          }
        }
      } else {
        forall k | 0 <= k < |searchElements| ensures searchElements[k].elementType in extendTypes {
          if k > 0 {
            assert searchElements[k] == rest[k - 1];
          }
        }
      }
    }
  }

  /**
   * The loop at the head of `doSearch` that asks each search element's
   * type to extend the query: it stops at the first type whose event
   * keeps its `null` query. The queries the handlers build are not part
   * of this model.
   */
  method ExtendTypeQueries(searchElements: seq<Element>, extendTypes: set<string>) returns (r: Option<string>)
    ensures r == Unextended(searchElements, extendTypes)
  {
    var i := 0;
    while i < |searchElements|
      invariant 0 <= i <= |searchElements|
      invariant Unextended(searchElements, extendTypes) == Unextended(searchElements[i..], extendTypes)
    {
      if searchElements[i].elementType !in extendTypes {
        return Some(searchElements[i].elementType);
      }
      assert searchElements[i..][1..] == searchElements[i + 1..];
      i := i + 1;
    }
    r := None;
  }

  /**
   * `doSearch`. An unknown group fails before anything else; then a
   * search element whose type no handler extends fails before any option
   * is looked at; the option loop then either ends the search or yields
   * the text search set the query is built with; the rest is `Finish`
   * applied to the database's rows for that query.
   */
  method DoSearch<E>(groupId: int, group: Option<Group>, searchElements: seq<Element>, groupFilters: seq<Filter>,
                     fields: map<int, FieldInfo>, options: seq<SearchOption>, page: int, db: SearchDb<E>)
    returns (r: Outcome<SearchResult<E>, SearchError>, query: SearchQuery)
    ensures group.None? ==> r == Thrown(GroupNotFound(groupId))
    ensures group.Some? && Unextended(searchElements, db.extendTypes).Some? ==>
      r == Thrown(NoExtendQueryHandler(Unextended(searchElements, db.extendTypes).value))
    ensures group.Some? && Unextended(searchElements, db.extendTypes).None? ==>
      var scan := Scan(options, FilterIndex(groupFilters), fields, {}, map[]);
      && (scan.Thrown? ==> r == Thrown(scan.error))
      && (scan.Done? ==>
        && query.siteId == group.value.siteId && query.elements == searchElements
        && query.textSearch == scan.value && query.searchOrder == group.value.searchOrder
        && query.joins == QueryJoins(options, FilterIndex(groupFilters), fields, group.value.siteId)
        && query.conditions == QueryConditions(options, FilterIndex(groupFilters), fields, group.value.siteId)
        && r == Finish(db.rows(query), group.value, page, db.handlers))
  {
    query := SearchQuery(0, searchElements, map[], [], [], "");
    if group.None? {
      return Thrown(GroupNotFound(groupId)), query;
    }
    var g := group.value;
    var unextended := ExtendTypeQueries(searchElements, db.extendTypes);
    if unextended.Some? {
      return Thrown(NoExtendQueryHandler(unextended.value)), query;
    }
    var filters := IndexFilters(groupFilters);
    var filterQuery := new FilterQuery();
    var strings := ApplyOptions(options, filters, fields, g.siteId, filterQuery);
    if strings.Thrown? {
      return Thrown(strings.error), query;
    }
    query := SearchQuery(g.siteId, searchElements, strings.value, filterQuery.joins, filterQuery.conditions, g.searchOrder);
    r := FinishSearch(db.rows(query), g, page, db.handlers);
  }

  /** The end of `doSearch`: the page of rows, its elements loaded by type, and the pagination. */
  method FinishSearch<E>(all: seq<Row>, g: Group, page: int, handlers: map<string, ElementsHandler<E>>)
    returns (r: Outcome<SearchResult<E>, SearchError>)
    ensures r == Finish(all, g, page, handlers)
  {
    var rows := Window(all, g.pageSize * (page - 1), g.pageSize);
    var index, buckets := IndexRows<E>(rows);
    var loaded := LoadElements(buckets, handlers, g.siteId, index);
    if loaded.Thrown? {
      return Thrown(loaded.error);
    }
    if g.pageSize == 0 {
      return Thrown(DivisionByZero);
    }
    var results := ReplaceRows(rows, loaded.value);
    assert results == seq(|rows|, k requires 0 <= k < |rows| => loaded.value[rows[k].id]);
    r := Done(SearchResult(Paginate(|all|, g.pageSize, page, |rows|), results));
  }

  // ---------------------------------------------------------------------
  // Options of a filter

  /** The handled events among `states`, in order. */
  function HandledStates(states: seq<OptionsState>): (r: seq<OptionsState>)
    ensures |r| <= |states|
    ensures forall s :: s in r <==> s in states && s.handled
    decreases |states|
  {
    if states == [] then []
    else
      var rest := HandledStates(states[1..]);
      assert forall s :: s in states[1..] ==> s in states;
      if states[0].handled then [states[0]] + rest else rest
  }

  /** The first of the handled events is the first event that was handled. */
  lemma {:induction false} FirstHandled(states: seq<OptionsState>)
    requires HandledStates(states) != []
    ensures exists i :: 0 <= i < |states| && states[i] == HandledStates(states)[0] && forall j :: 0 <= j < i ==> !states[j].handled
    decreases |states|
  {
    if !states[0].handled {
      var rest := HandledStates(states[1..]);
      FirstHandled(states[1..]);
      var i :| 0 <= i < |states[1..]| && states[1..][i] == rest[0] && forall j :: 0 <= j < i ==> !states[1..][j].handled;
      assert states[i + 1] == rest[0];
      forall j | 0 < j < i + 1 ensures !states[j].handled {
        assert states[j] == states[1..][j - 1];
      }
    } else {
      assert states[0] == HandledStates(states)[0];
    }
  }

  /** Two handled events disagree on the type or the total. */
  predicate Disagree(a: OptionsState, b: OptionsState)
  {
    a.kind != b.kind || a.total != b.total
  }

  /**
   * The end of `getOptions` for an attribute: a handled event that
   * differs from the first handled one in type or total is a conflict;
   * no handled event is an error; otherwise the first handled event.
   */
  function PickAttributeOptions(states: seq<OptionsState>): Outcome<OptionsState, SearchError>
  {
    var handled := HandledStates(states);
    if exists k :: 0 <= k < |handled| && Disagree(handled[k], handled[0]) then Thrown(ConflictingAttributeOptions)
    else if handled == [] then Thrown(NoGetAttributeOptionsHandler)
    else Done(handled[0])
  }

  /**
   * Comparing each handled event with the first is the same as comparing
   * every two: the options conflict exactly when some two handled events
   * disagree on type or total.
   */
  lemma ConflictIffDisagreement(states: seq<OptionsState>)
    ensures PickAttributeOptions(states) == Thrown(ConflictingAttributeOptions) <==> SomeTwoDisagree(states)
  {
    if SomeTwoDisagree(states) {
      var i, j :| 0 <= i < |states| && 0 <= j < |states| && states[i].handled && states[j].handled && Disagree(states[i], states[j]);
      ConflictFromPair(states, i, j);
    }
    if PickAttributeOptions(states) == Thrown(ConflictingAttributeOptions) {
      PairFromConflict(states);
    }
  }

  /** Two handled events disagree. */
  predicate SomeTwoDisagree(states: seq<OptionsState>)
  {
    exists i, j :: 0 <= i < |states| && 0 <= j < |states| && states[i].handled && states[j].handled && Disagree(states[i], states[j])
  }

  lemma ConflictFromPair(states: seq<OptionsState>, i: int, j: int)
    requires 0 <= i < |states| && 0 <= j < |states| && states[i].handled && states[j].handled && Disagree(states[i], states[j])
    ensures PickAttributeOptions(states) == Thrown(ConflictingAttributeOptions)
  {
    var handled := HandledStates(states);
    assert states[i] in handled && states[j] in handled;
    var a :| 0 <= a < |handled| && handled[a] == states[i];
    var b :| 0 <= b < |handled| && handled[b] == states[j];
    assert Disagree(handled[a], handled[0]) || Disagree(handled[b], handled[0]);
  }

  lemma PairFromConflict(states: seq<OptionsState>)
    requires PickAttributeOptions(states) == Thrown(ConflictingAttributeOptions)
    ensures SomeTwoDisagree(states)
  {
    var handled := HandledStates(states);
    var k :| 0 <= k < |handled| && Disagree(handled[k], handled[0]);
    assert handled[k] in states && handled[0] in states;
    var i :| 0 <= i < |states| && states[i] == handled[k];
    var j :| 0 <= j < |states| && states[j] == handled[0];
    assert states[i].handled && states[j].handled && Disagree(states[i], states[j]);
  }

  /** With no event handled there is no handler; otherwise there is a conflict or a result. */
  lemma NoHandlerIffNoneHandled(states: seq<OptionsState>)
    ensures PickAttributeOptions(states) == Thrown(NoGetAttributeOptionsHandler) <==> forall i :: 0 <= i < |states| ==> !states[i].handled
  {
    var handled := HandledStates(states);
    if handled != [] {
      assert handled[0] in states;
      var i :| 0 <= i < |states| && states[i] == handled[0];
      assert states[i].handled;
    } else {
      forall i | 0 <= i < |states| ensures !states[i].handled {
        assert states[i] in states;
      }
    }
  }

  /**
   * The result is the first event that was handled, and every handled
   * event has its type and total.
   */
  lemma PickedFirstHandled(states: seq<OptionsState>)
    requires PickAttributeOptions(states).Done?
    ensures var s := PickAttributeOptions(states).value;
      && (exists i :: 0 <= i < |states| && states[i] == s && s.handled && forall j :: 0 <= j < i ==> !states[j].handled)
      && forall i :: 0 <= i < |states| && states[i].handled ==> !Disagree(states[i], s)
  {
    var handled := HandledStates(states);
    FirstHandled(states);
    forall i | 0 <= i < |states| && states[i].handled ensures !Disagree(states[i], handled[0]) {
      assert states[i] in handled;
    }
  }

  /** The events the element types' handlers make of a new event for `attribute`, one per search element. */
  function AttributeStates(elements: seq<Element>, attribute: Option<string>, site: AttributeSite, hint: Value): (r: seq<OptionsState>)
    ensures |r| == |elements|
  {
    seq(|elements|, k requires 0 <= k < |elements| => AttributeOptionsState(elements[k].elementType, attribute, site, hint))
  }

  /**
   * `getOptions`. A field filter's event goes to the handler of the
   * field's class; an attribute filter's goes to each of the group's
   * element types in turn, and the handled ones must agree.
   */
  method GetOptions(filterId: int, filter: Option<Filter>, fields: map<int, FieldInfo>, groupElements: seq<Element>,
                    hint: Value, fieldSite: OptionSite, attributeSite: AttributeSite)
    returns (r: Outcome<OptionsEvent, SearchError>)
    ensures filter.None? ==> r == Thrown(NullFilter(filterId))
    ensures filter.Some? && OnField(filter.value) ==>
      var id := filter.value.fieldId.value;
      if id !in fields then r == Thrown(FieldNotFound(id))
      else
        var s := FieldOptionsState(fields[id].fieldType, fields[id].settings, fieldSite, hint);
        if s.handled then r.Done? && r.value.State() == s else r == Thrown(NoGetFieldOptionsHandler)
    ensures filter.Some? && !OnField(filter.value) ==>
      match PickAttributeOptions(AttributeStates(groupElements, filter.value.attribute, attributeSite, hint))
      case Thrown(error) => r == Thrown(error)
      case Done(s) => r.Done? && r.value.State() == s
  {
    if filter.None? {
      return Thrown(NullFilter(filterId));
    }
    var f := filter.value;
    if OnField(f) {
      var id := f.fieldId.value;
      if id !in fields {
        return Thrown(FieldNotFound(id));
      }
      var e := new OptionsEvent(hint);
      GetFieldOptions(e, fields[id].fieldType, fields[id].settings, fieldSite);
      if !e.handled {
        return Thrown(NoGetFieldOptionsHandler);
      }
      return Done(e);
    }
    var handled := CollectAttributeOptions(groupElements, f.attribute, hint, attributeSite);
    r := ChooseAttributeOptions(handled, HandledStates(AttributeStates(groupElements, f.attribute, attributeSite, hint)));
  }

  /** The `foreach` over the group's search elements: a new event per element type, keeping those it handled. */
  method CollectAttributeOptions(groupElements: seq<Element>, attribute: Option<string>, hint: Value, site: AttributeSite)
    returns (handled: seq<OptionsEvent>)
    ensures Mirrors(handled, HandledStates(AttributeStates(groupElements, attribute, site, hint)))
  {
    handled := [];
    ghost var all := AttributeStates(groupElements, attribute, site, hint);
    ghost var states: seq<OptionsState> := [];
    var i := 0;
    while i < |groupElements|
      invariant 0 <= i <= |groupElements|
      invariant states == HandledStates(all[..i])
      invariant Mirrors(handled, states)
    {
      var e := AskElementType(groupElements, i, attribute, hint, site);
      CollectStep(all, i, handled, states, e);
      if e.handled {
        handled := handled + [e];
        states := states + [e.State()];
      }
      i := i + 1;
    }
    CollectDone(all, handled, states);
  }

  lemma CollectDone(all: seq<OptionsState>, handled: seq<OptionsEvent>, states: seq<OptionsState>)
    requires states == HandledStates(all[..|all|]) && Mirrors(handled, states)
    ensures Mirrors(handled, HandledStates(all))
  {
    assert all[..|all|] == all;
  }

  /** The events hold the states, one for one. */
  predicate Mirrors(events: seq<OptionsEvent>, states: seq<OptionsState>)
    reads events
  {
    |events| == |states| && forall k :: 0 <= k < |events| ==> events[k].State() == states[k]
  }

  /** The loop's invariant survives one more element type. */
  lemma CollectStep(all: seq<OptionsState>, i: int, handled: seq<OptionsEvent>, states: seq<OptionsState>, e: OptionsEvent)
    requires 0 <= i < |all| && e.State() == all[i]
    requires states == HandledStates(all[..i]) && Mirrors(handled, states)
    ensures e.handled ==> states + [e.State()] == HandledStates(all[..i + 1]) && Mirrors(handled + [e], states + [e.State()])
    ensures !e.handled ==> states == HandledStates(all[..i + 1])
  {
    assert all[..i + 1] == all[..i] + [all[i]];
    HandledStatesStep(all[..i], all[i]);
  }

  /** One turn of that loop: a new event, passed to the element type's handler. */
  method AskElementType(elements: seq<Element>, i: int, attribute: Option<string>, hint: Value, site: AttributeSite)
    returns (e: OptionsEvent)
    requires 0 <= i < |elements|
    ensures fresh(e) && e.State() == AttributeStates(elements, attribute, site, hint)[i]
  {
    e := new OptionsEvent(hint);
    GetAttributeOptions(e, elements[i].elementType, attribute, site);
  }

  /** Some state disagrees with the first one. */
  predicate DisagreesWithFirst(states: seq<OptionsState>)
  {
    exists k :: 0 <= k < |states| && Disagree(states[k], states[0])
  }

  /** On handled events only, the choice compares each with the first. */
  lemma PickAmongHandled(states: seq<OptionsState>)
    requires forall k :: 0 <= k < |states| ==> states[k].handled
    ensures PickAttributeOptions(states) ==
      if DisagreesWithFirst(states) then Thrown(ConflictingAttributeOptions)
      else if states == [] then Thrown(NoGetAttributeOptionsHandler)
      else Done(states[0])
  {
    HandledStatesAll(states);
  }

  /** The conflict check over the handled events, then the check that there is one. */
  method ChooseAttributeOptions(handled: seq<OptionsEvent>, ghost states: seq<OptionsState>) returns (r: Outcome<OptionsEvent, SearchError>)
    requires Mirrors(handled, states)
    requires forall k :: 0 <= k < |states| ==> states[k].handled
    ensures match PickAttributeOptions(states)
      case Thrown(error) => r == Thrown(error)
      case Done(s) => r.Done? && r.value.State() == s
  {
    PickAmongHandled(states);
    var k := 0;
    while k < |handled|
      invariant 0 <= k <= |handled|
      invariant forall j :: 0 <= j < k ==> !Disagree(states[j], states[0])
    {
      ghost var first, current := states[0], states[k];
      assert handled[0].State() == first && handled[k].State() == current;
      if handled[k].kind != handled[0].kind || handled[k].total != handled[0].total {
        assert Disagree(states[k], states[0]);
        assert DisagreesWithFirst(states);
        return Thrown(ConflictingAttributeOptions);
      }
      assert !Disagree(current, first);
      k := k + 1;
    }
    assert !DisagreesWithFirst(states);
    if |handled| == 0 {
      return Thrown(NoGetAttributeOptionsHandler);
    }
    return Done(handled[0]);
  }

  /** Handled events pass through unchanged. */
  lemma {:induction false} HandledStatesAll(states: seq<OptionsState>)
    requires forall k :: 0 <= k < |states| ==> states[k].handled
    ensures HandledStates(states) == states
    decreases |states|
  {
    if states != [] {
      HandledStatesAll(states[1..]);
    }
  }

  /** Collecting handled events one at a time. */
  lemma HandledStatesStep(states: seq<OptionsState>, s: OptionsState)
    ensures HandledStates(states + [s]) == HandledStates(states) + if s.handled then [s] else []
    decreases |states|
  {
    if states != [] {
      assert (states + [s])[1..] == states[1..] + [s];
      HandledStatesStep(states[1..], s);
    }
  }
}
