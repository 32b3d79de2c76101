/**
 * The search group model (src/models/SearchGroup.php) as an object: its
 * fields, and the two lists a caller may set to override what the group
 * reads back from the element and filter repositories.
 */
module SearchGroupModels {
  import opened Optional
  import opened Records
  import opened MultiCaches
  import Elements = SearchGroupElementsService
  import Filters = SearchGroupFiltersService

  class SearchGroupModel {
    var group: Group
    /** `$_filters`: `null` means "ask the filter repository". */
    var filtersOverride: Option<seq<Filter>>
    /** `$_elements`: `null` means "ask the element repository". */
    var elementsOverride: Option<seq<Element>>

    constructor (group: Group)
      ensures this.group == group && filtersOverride == None && elementsOverride == None
    {
      this.group := group;
      filtersOverride := None;
      elementsOverride := None;
    }

    /** `getFilters`: the override list whenever one is set, else the group's filters. */
    method GetFilters(service: Filters.SearchGroupFilters) returns (r: seq<Filter>)
      requires service.Valid() && service.db.Valid()
      modifies service.filters, service.groupFilters
      ensures service.Valid()
      ensures filtersOverride.Some? ==> r == filtersOverride.value && unchanged(service.filters, service.groupFilters)
      ensures filtersOverride.None? && group.id == 0 ==> r == []
      ensures filtersOverride.None? && group.id != 0 ==>
        && service.groupFilters.IsFinalized(group.id)
        && r == Values(service.groupFilters.GetItems(group.id).entries)
    {
      if filtersOverride.Some? {
        return filtersOverride.value;
      }
      var entries := service.GetFiltersByGroup(group);
      r := Values(entries);
    }

    /** `overrideFilters`: `None` restores the repository lookup. */
    method OverrideFilters(filters: Option<seq<Filter>>)
      modifies this`filtersOverride
      ensures filtersOverride == filters
    {
      filtersOverride := filters;
    }

    /** `getSearchElements`: the override list whenever one is set, else the group's elements. */
    method GetSearchElements(service: Elements.SearchGroupElements) returns (r: seq<Element>)
      requires service.Valid() && service.db.Valid()
      modifies service.groupElements
      ensures service.Valid()
      ensures elementsOverride.Some? ==> r == elementsOverride.value && unchanged(service.groupElements)
      ensures elementsOverride.None? && group.id == 0 ==> r == []
      ensures elementsOverride.None? && group.id != 0 ==>
        && service.groupElements.IsFinalized(group.id)
        && r == Values(service.groupElements.GetItems(group.id).entries)
    {
      if elementsOverride.Some? {
        return elementsOverride.value;
      }
      var entries := service.GetSearchElementsByGroup(group);
      r := Values(entries);
    }

    /** `overrideSearchElements`: `None` restores the repository lookup. */
    method OverrideSearchElements(elements: Option<seq<Element>>)
      modifies this`elementsOverride
      ensures elementsOverride == elements
    {
      elementsOverride := elements;
    }
  }
}
