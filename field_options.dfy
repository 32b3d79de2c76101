/**
 * The field option handlers (src/adapters/FieldOptions.php): for each
 * supported field class, the handler that fills a "get field options"
 * event with the field's type classification and its options. Paged
 * handlers list one page of 50 matching elements; the others list the
 * field's configured options or a fixed set.
 *
 * Database lookups are inputs: `OptionSite.elements` gives the elements of
 * a relation field's kind in the sources with the given uids, in query
 * order, and `sources` the element type's source list for "all sources".
 */
module FieldOptions {
  import opened Optional
  import opened PhpValues
  import opened OptionEvents
  import opened FilterQueries

  /** An entry of `Element::sources('settings')`: a heading has no key. */
  datatype SourceEntry = Heading | Source(key: string, criteria: string)

  /** A relation field's `sources`: an array of source keys, or `*` for all of them. */
  datatype Sources = AllSources | Chosen(keys: seq<string>)

  /** The settings of a field the handlers read. */
  datatype FieldSettings = FieldSettings(
    /** The configured `(value, label)` options of a list field. */
    options: seq<(Value, string)>,
    useSingleFolder: bool, singleUploadLocationSource: string,
    sources: Sources, source: string,
    min: Value, max: Value, decimals: Value)

  /** What the handlers look up outside the field. */
  datatype OptionSite = OptionSite(
    elements: (FieldType, seq<string>) -> seq<Item>,
    sources: FieldType -> seq<SourceEntry>,
    /** `Craft::t('site', ...)`. */
    translate: string -> string)

  /** The source key prefixes the handlers cut off, by their lengths in the source. */
  const VolumePrefix := "volume:"
  const GroupPrefix := "group:"
  const SectionPrefix := "section:"
  const TagGroupPrefix := "taggroup:"

  /** `substr($s, $n)`: the text after the first `n` characters, or "" when there is none. */
  function Drop(s: string, n: nat): (r: string)
    ensures |s| >= n ==> s == s[..n] + r
    ensures |s| <= n ==> r == ""
  {
    if |s| >= n then s[n..] else ""
  }

  /**
   * The fixed offsets 7, 6, 8 and 9 are the lengths of "volume:",
   * "group:", "section:" and "taggroup:", so each removes exactly its
   * prefix from a source key.
   */
  lemma PrefixesDropped(uid: string)
    ensures Drop(VolumePrefix + uid, 7) == uid
    ensures Drop(GroupPrefix + uid, 6) == uid
    ensures Drop(SectionPrefix + uid, 8) == uid
    ensures Drop(TagGroupPrefix + uid, 9) == uid
  {
    assert (VolumePrefix + uid)[7..] == uid;
    assert (GroupPrefix + uid)[6..] == uid;
    assert (SectionPrefix + uid)[8..] == uid;
    assert (TagGroupPrefix + uid)[9..] == uid;
  }

  /** The criteria of the sources that have a key other than `*`, in order. */
  function KeyedCriteria(entries: seq<SourceEntry>): (r: seq<string>)
    ensures |r| <= |entries|
    ensures forall c :: c in r <==> exists k :: 0 <= k < |entries| && entries[k].Source? && entries[k].key != "*" && entries[k].criteria == c
    decreases |entries|
  {
    if entries == [] then []
    else
      var init := entries[..|entries| - 1];
      var last := entries[|entries| - 1];
      var r := KeyedCriteria(init) + if last.Source? && last.key != "*" then [last.criteria] else [];
      assert forall k :: 0 <= k < |init| ==> init[k] == entries[k];
      r
  }

  /** The uids a relation field queries: each chosen key without its prefix, or the criteria of all keyed sources. */
  function SourceUids(sources: Sources, all: seq<SourceEntry>, prefix: nat): (r: seq<string>)
    ensures sources.Chosen? ==> |r| == |sources.keys| && forall k :: 0 <= k < |r| ==> r[k] == Drop(sources.keys[k], prefix)
  {
    match sources
    case Chosen(keys) => seq(|keys|, k requires 0 <= k < |keys| => Drop(keys[k], prefix))
    case AllSources => KeyedCriteria(all)
  }

  /** The `foreach` over a field's sources that collects the uids to query. */
  method CollectUids(sources: Sources, all: seq<SourceEntry>, prefix: nat) returns (uids: seq<string>)
    ensures uids == SourceUids(sources, all, prefix)
  {
    uids := [];
    match sources {
      case Chosen(keys) =>
        var k := 0;
        while k < |keys|
          invariant 0 <= k <= |keys|
          invariant uids == SourceUids(Chosen(keys[..k]), all, prefix)
        {
          uids := uids + [Drop(keys[k], prefix)];
          k := k + 1;
        }
        assert keys[..k] == keys;
      case AllSources =>
        var k := 0;
        while k < |all|
          invariant 0 <= k <= |all|
          invariant uids == KeyedCriteria(all[..k])
        {
          assert all[..k + 1][..k] == all[..k];
          if all[k].Source? && all[k].key != "*" {
            uids := uids + [all[k].criteria];
          }
          k := k + 1;
        }
        assert all[..k] == all;
    }
  }

  /** The uids an assets field queries: its single folder, or its sources. */
  function AssetUids(settings: FieldSettings, site: OptionSite): seq<string>
  {
    if settings.useSingleFolder then [Drop(settings.singleUploadLocationSource, |VolumePrefix|)]
    else SourceUids(settings.sources, site.sources(Assets), |VolumePrefix|)
  }

  /** The elements a paged field handler lists. */
  function Matching(field: FieldType, settings: FieldSettings, site: OptionSite): seq<Item>
  {
    match field
    case Assets => site.elements(Assets, AssetUids(settings, site))
    case Categories => site.elements(Categories, [Drop(settings.source, |GroupPrefix|)])
    case Entries => site.elements(Entries, SourceUids(settings.sources, site.sources(Entries), |SectionPrefix|))
    case Tags => site.elements(Tags, [Drop(settings.source, |TagGroupPrefix|)])
    case _ => site.elements(field, [])
  }

  /** The configured options of a list field, each label translated. */
  function ConfiguredEntries(configured: seq<(Value, string)>, translate: string -> string): (r: seq<OptionEntry>)
    ensures |r| == |configured|
    ensures forall k :: 0 <= k < |r| ==> r[k] == OptionEntry(configured[k].0, translate(configured[k].1))
  {
    seq(|configured|, k requires 0 <= k < |configured| => OptionEntry(configured[k].0, translate(configured[k].1)))
  }

  /** A handler that only classifies: handled, the type, no options, total 0. */
  function Classified(kind: string): OptionsState
  {
    OptionsState(true, Some(kind), false, Listed([]), 0)
  }

  /** The lightswitch's two options. */
  const SwitchOptions: seq<OptionEntry> := [OptionEntry(Bool(true), "True"), OptionEntry(Bool(false), "False")]

  /** The number field's range record, min from `min` and max from `max`. */
  function NumberRangeOf(settings: FieldSettings): (r: Options)
    ensures r.NumberRange? && r.min == settings.min && r.max == settings.max && r.decimalPoints == settings.decimals
  {
    NumberRange(settings.min, settings.max, settings.decimals)
  }

  /**
   * The record `getNumberOptions` builds: `'min' => $field->max` and
   * `'max' => $field->min`.
   */
  function NumberRangeAsWritten(settings: FieldSettings): Options
  {
    NumberRange(settings.max, settings.min, settings.decimals)
  }

  /** A number field from 0 to 10 is offered as the range from 10 to 0. */
  lemma NumberRangeSwappedAsWritten(settings: FieldSettings)
    requires settings.min == Int(0) && settings.max == Int(10)
    ensures NumberRangeAsWritten(settings) == NumberRange(Int(10), Int(0), settings.decimals)
    ensures NumberRangeAsWritten(settings) != NumberRangeOf(settings)
  {
  }

  /**
   * The event a new "get field options" event becomes once the handlers
   * of the field's class ran: its type classification, and its options.
   * Fields of other classes have no handler and leave it new.
   */
  function FieldOptionsState(field: FieldType, settings: FieldSettings, site: OptionSite, hint: Value): (s: OptionsState)
    ensures s.handled <==> field != OtherField
    ensures s.kind == Some("multiple") <==> field in {Assets, Categories, Checkboxes, Entries, MultiSelect, Tags, Users}
    ensures s.kind == Some("single") <==> field in {Dropdown, Lightswitch, RadioButtons}
    ensures s.kind == Some("string") <==> field == PlainText
    ensures s.kind == Some("number") <==> field == Number
    ensures s.kind == Some("date") <==> field == Date
    ensures s.kind == Some("map") <==> field == MapField
    ensures s.partial ==> s.total > PageSize
  {
    match field
    case Assets | Categories | Entries | Tags | Users => PagedState("multiple", Matching(field, settings, site), hint)
    case Checkboxes | MultiSelect =>
      OptionsState(true, Some("multiple"), false, Listed(ConfiguredEntries(settings.options, site.translate)), |settings.options|)
    case Dropdown | RadioButtons =>
      OptionsState(true, Some("single"), false, Listed(ConfiguredEntries(settings.options, site.translate)), |settings.options|)
    case Lightswitch => OptionsState(true, Some("single"), false, Listed(SwitchOptions), |SwitchOptions|)
    case Number => OptionsState(true, Some("number"), false, NumberRangeOf(settings), 0)
    case Date => Classified("date")
    case PlainText => Classified("string")
    case MapField => Classified("map")
    case OtherField => Fresh
  }

  /**
   * List fields offer their configured options one for one, in order and
   * with the same values, and count them; a lightswitch offers exactly
   * true as "True" and false as "False".
   */
  lemma ListedOptions(field: FieldType, settings: FieldSettings, site: OptionSite, hint: Value)
    ensures var s := FieldOptionsState(field, settings, site, hint);
      field in {Checkboxes, Dropdown, MultiSelect, RadioButtons} ==>
        && s.options.Listed? && |s.options.entries| == |settings.options| == s.total
        && forall k :: 0 <= k < s.total ==> s.options.entries[k].value == settings.options[k].0
    ensures var s := FieldOptionsState(field, settings, site, hint);
      field == Lightswitch ==>
        s.options == Listed([OptionEntry(Bool(true), "True"), OptionEntry(Bool(false), "False")]) && s.total == 2
  {
  }

  /**
   * Relation fields list the hint's page of the matching elements, by
   * id and label, with the unpaged count as the total.
   */
  lemma PagedOptions(field: FieldType, settings: FieldSettings, site: OptionSite, hint: Value)
    requires field in {Assets, Categories, Entries, Tags, Users}
    ensures var s := FieldOptionsState(field, settings, site, hint);
      var all := Matching(field, settings, site);
      && s.total == |all| && (s.partial <==> |all| > PageSize)
      && s.options == Listed(ItemEntries(Page(all, hint)))
      && |s.options.entries| <= PageSize
  {
    PageSound(Matching(field, settings, site), hint);
  }

  // ---------------------------------------------------------------------
  // The handlers

  /** `getAssetsOptions`. */
  method GetAssetsOptions(e: OptionsEvent, settings: FieldSettings, site: OptionSite)
    requires e.State() == Fresh
    modifies e
    ensures e.State() == FieldOptionsState(Assets, settings, site, e.hint)
  {
    var uids;
    if settings.useSingleFolder {
      uids := [Drop(settings.singleUploadLocationSource, |VolumePrefix|)];
    } else {
      uids := CollectUids(settings.sources, site.sources(Assets), |VolumePrefix|);
    }
    ListPage(e, "multiple", site.elements(Assets, uids));
  }

  /** `getCategoriesOptions`. */
  method GetCategoriesOptions(e: OptionsEvent, settings: FieldSettings, site: OptionSite)
    requires e.State() == Fresh
    modifies e
    ensures e.State() == FieldOptionsState(Categories, settings, site, e.hint)
  {
    ListPage(e, "multiple", site.elements(Categories, [Drop(settings.source, |GroupPrefix|)]));
  }

  /** `getEntriesOptions`. */
  method GetEntriesOptions(e: OptionsEvent, settings: FieldSettings, site: OptionSite)
    requires e.State() == Fresh
    modifies e
    ensures e.State() == FieldOptionsState(Entries, settings, site, e.hint)
  {
    var uids := CollectUids(settings.sources, site.sources(Entries), |SectionPrefix|);
    ListPage(e, "multiple", site.elements(Entries, uids));
  }

  /** `getTagsOptions`. */
  method GetTagsOptions(e: OptionsEvent, settings: FieldSettings, site: OptionSite)
    requires e.State() == Fresh
    modifies e
    ensures e.State() == FieldOptionsState(Tags, settings, site, e.hint)
  {
    ListPage(e, "multiple", site.elements(Tags, [Drop(settings.source, |TagGroupPrefix|)]));
  }

  /** `getUsersOptions`. */
  method GetUsersOptions(e: OptionsEvent, settings: FieldSettings, site: OptionSite)
    requires e.State() == Fresh
    modifies e
    ensures e.State() == FieldOptionsState(Users, settings, site, e.hint)
  {
    ListPage(e, "multiple", site.elements(Users, []));
  }

  /** The `foreach` over a list field's configured options shared by the checkbox, dropdown, multi-select and radio handlers. */
  method ListConfigured(e: OptionsEvent, kind: string, configured: seq<(Value, string)>, translate: string -> string)
    requires e.State() == Fresh
    modifies e
    ensures e.State() == OptionsState(true, Some(kind), false, Listed(ConfiguredEntries(configured, translate)), |configured|)
  {
    e.handled := true;
    e.kind := Some(kind);
    var k := 0;
    while k < |configured|
      invariant 0 <= k <= |configured|
      invariant e.State() == OptionsState(true, Some(kind), false, Listed(ConfiguredEntries(configured[..k], translate)), 0)
    {
      assert ConfiguredEntries(configured[..k + 1], translate)
        == ConfiguredEntries(configured[..k], translate) + [OptionEntry(configured[k].0, translate(configured[k].1))];
      e.options := Listed(e.options.entries + [OptionEntry(configured[k].0, translate(configured[k].1))]);
      k := k + 1;
    }
    assert configured[..k] == configured;
    e.total := |e.options.entries|;
  }

  /** `getLightswitchOptions`. */
  method GetLightswitchOptions(e: OptionsEvent)
    requires e.State() == Fresh
    modifies e
    ensures e.State() == OptionsState(true, Some("single"), false, Listed(SwitchOptions), 2)
  {
    e.handled := true;
    e.kind := Some("single");
    e.options := Listed(SwitchOptions);
    e.total := |e.options.entries|;
  }

  /** `getNumberOptions` with the range the right way round. */
  method GetNumberOptions(e: OptionsEvent, settings: FieldSettings)
    requires e.State() == Fresh
    modifies e
    ensures e.State() == OptionsState(true, Some("number"), false, NumberRangeOf(settings), 0)
  {
    e.handled := true;
    e.kind := Some("number");
    e.options := NumberRange(settings.min, settings.max, settings.decimals);
  }

  /** `getNumberOptions` as written, with min and max exchanged. */
  method GetNumberOptionsAsWritten(e: OptionsEvent, settings: FieldSettings)
    requires e.State() == Fresh
    modifies e
    ensures e.State() == OptionsState(true, Some("number"), false, NumberRangeAsWritten(settings), 0)
  {
    e.handled := true;
    e.kind := Some("number");
    e.options := NumberRange(settings.max, settings.min, settings.decimals);
  }

  /** `getDateOptions`, `getPlainTextOptions` and `getMapFieldOptions`: only the type. */
  method Classify(e: OptionsEvent, kind: string)
    requires e.State() == Fresh
    modifies e
    ensures e.State() == Classified(kind)
  {
    e.handled := true;
    e.kind := Some(kind);
  }

  /** `$field->trigger(EVENT_RELIQUARY_GET_FIELD_OPTIONS, $event)`: the handler bound to the field's class. */
  method GetFieldOptions(e: OptionsEvent, field: FieldType, settings: FieldSettings, site: OptionSite)
    requires e.State() == Fresh
    modifies e
    ensures e.State() == FieldOptionsState(field, settings, site, e.hint)
  {
    match field
    case Assets => GetAssetsOptions(e, settings, site);
    case Categories => GetCategoriesOptions(e, settings, site);
    case Entries => GetEntriesOptions(e, settings, site);
    case Tags => GetTagsOptions(e, settings, site);
    case Users => GetUsersOptions(e, settings, site);
    case Checkboxes | MultiSelect => ListConfigured(e, "multiple", settings.options, site.translate);
    case Dropdown | RadioButtons => ListConfigured(e, "single", settings.options, site.translate);
    case Lightswitch => GetLightswitchOptions(e);
    case Number => GetNumberOptions(e, settings);
    case Date => Classify(e, "date");
    case PlainText => Classify(e, "string");
    case MapField => Classify(e, "map");
    case OtherField =>
  }
}
