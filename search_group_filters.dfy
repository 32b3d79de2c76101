/**
 * `SearchGroupFilters` (src/services/SearchGroupFilters.php): the filters
 * each search group offers, read through two MultiCaches, one holding each
 * filter under its id and one holding the sets of filters keyed by group id.
 */
module SearchGroupFiltersService {
  import opened Optional
  import opened Records
  import opened MultiCaches
  import opened CacheFill

  /** The comparator `$a->sortOrder - $b->sortOrder`, as a rank. */
  function SortOrderOf(f: Filter): int { f.sortOrder }

  /** The rows of group `groupId` (`['groupId' => $groupId]`). */
  function InGroup(groupId: int): Filter -> bool
  {
    (f: Filter) => f.groupId == groupId
  }

  /** The cache key a filter's set is filed under: its group. */
  function FilterGroup(f: Filter): int { f.groupId }

  /** The by-id cache holds single filters, each under its own id. */
  ghost predicate ById(items: map<int, Slot<Filter>>)
  {
    forall k :: k in items ==> items[k].Single? && items[k].item.id == k
  }

  /** The ids of `records[..n]`. */
  ghost function RecordIds(records: seq<Filter>, n: int): set<int>
    requires 0 <= n <= |records|
  {
    set k | 0 <= k < n :: records[k].id
  }

  lemma RecordIdsStep(records: seq<Filter>, i: int)
    requires 0 <= i < |records|
    ensures RecordIds(records, i + 1) == RecordIds(records, i) + {records[i].id}
  {
  }

  class SearchGroupFilters {
    const db: Database
    const filters: MultiCache<int, Filter>
    const groupFilters: MultiCache<int, Filter>

    ghost predicate Valid()
      reads this, filters, groupFilters
    {
      && filters != groupFilters
      && filters.Valid() && groupFilters.Valid()
      && ById(filters.items)
      && FiledSets(groupFilters.items, FilterId, FilterGroup)
    }

    /** `init`: two empty caches. */
    constructor (db: Database)
      ensures Valid() && this.db == db && fresh(filters) && fresh(groupFilters)
      ensures filters.items == map[] && filters.finalized == []
      ensures groupFilters.items == map[] && groupFilters.finalized == []
    {
      this.db := db;
      filters := new MultiCache<int, Filter>();
      groupFilters := new MultiCache<int, Filter>();
    }

    /** `_cacheFilter`: the filter under its id, and in its group's set under its id. */
    method CacheFilter(f: Filter)
      requires Valid()
      modifies filters, groupFilters
      ensures Valid()
      ensures filters.items == old(filters.items)[f.id := Single(f)]
      ensures filters.IsFinalized(f.id)
      ensures forall k :: k != f.id ==> (filters.IsFinalized(k) <==> old(filters.IsFinalized(k)))
      ensures groupFilters.finalized == old(groupFilters.finalized)
      ensures var before := old(groupFilters.GetItems(f.groupId)).entries;
        groupFilters.items == old(groupFilters.items)[f.groupId := Set(Put(before, f.id, f))]
    {
      FileById(f);
      FileInGroup(f);
    }

    /** `$this->_filters->setItem($filter, $filter->id)`. */
    method FileById(f: Filter)
      requires Valid()
      modifies filters
      ensures Valid()
      ensures filters.items == old(filters.items)[f.id := Single(f)]
      ensures filters.IsFinalized(f.id)
      ensures forall k :: k != f.id ==> (filters.IsFinalized(k) <==> old(filters.IsFinalized(k)))
    {
      ghost var byId0 := filters.items;
      filters.SetItem(f, f.id);
      forall k | k in filters.items ensures filters.items[k].Single? && filters.items[k].item.id == k {
        if k != f.id {
          assert filters.items[k] == byId0[k];
        }
      }
    }

    /** `$this->_groupFilters->addItem($filter, $filter->id, $filter->groupId)`. */
    method FileInGroup(f: Filter)
      requires Valid()
      modifies groupFilters
      ensures Valid()
      ensures groupFilters.finalized == old(groupFilters.finalized)
      ensures var before := old(groupFilters.GetItems(f.groupId)).entries;
        groupFilters.items == old(groupFilters.items)[f.groupId := Set(Put(before, f.id, f))]
    {
      ghost var items0 := groupFilters.items;
      assert FilterGroup(f) == f.groupId && FilterId(f) == f.id;
      assert EntriesAt(items0, f.groupId) == groupFilters.GetItems(f.groupId).entries;
      assert DistinctKeys(EntriesAt(items0, f.groupId));
      AddKeepsFiledSets(items0, f, FilterId, FilterGroup);
      groupFilters.AddItem(f, f.id, f.groupId);
    }

    /** `_sortGroupFilters`: order a finalized group set by ascending sort order. */
    method SortGroupFilters(groupId: int)
      requires Valid()
      modifies groupFilters
      ensures Valid()
      ensures groupFilters.finalized == old(groupFilters.finalized)
      ensures !groupFilters.IsFinalized(groupId) ==> groupFilters.items == old(groupFilters.items)
      ensures groupFilters.items.Keys == old(groupFilters.items).Keys
      ensures groupFilters.items - {groupId} == old(groupFilters.items) - {groupId}
      ensures forall g :: g != groupId ==> groupFilters.GetItems(g) == old(groupFilters.GetItems(g))
      ensures groupFilters.IsFinalized(groupId) && groupId in groupFilters.items ==>
        && SortedBy(groupFilters.items[groupId].entries, SortOrderOf)
        && multiset(groupFilters.items[groupId].entries) == multiset(old(groupFilters.items[groupId].entries))
    {
      if !groupFilters.IsFinalized(groupId) {
        return;
      }
      ghost var items0 := groupFilters.items;
      if groupId in groupFilters.items {
        groupFilters.SortSet(SortOrderOf, groupId);
        var entries := groupFilters.items[groupId].entries;
        forall e | e in entries ensures e in EntriesAt(items0, groupId) {
          assert e in multiset(entries);
        }
        ReplaceKeepsFiledSets(items0, groupId, entries, FilterId, FilterGroup);
        assert groupFilters.items == items0[groupId := Set(entries)];
      } else {
        groupFilters.SortSet(SortOrderOf, groupId);
      }
    }

    /** The `foreach` of `getFiltersByGroupId`: cache each fetched row of the group. */
    method CacheRecords(groupId: int, records: seq<Filter>)
      requires Valid()
      requires forall k :: 0 <= k < |records| ==> records[k].groupId == groupId
      modifies filters, groupFilters
      ensures Valid()
      ensures groupFilters.finalized == old(groupFilters.finalized)
      ensures groupFilters.items - {groupId} == old(groupFilters.items) - {groupId}
      ensures Collected(groupFilters.GetItems(groupId).entries, old(groupFilters.GetItems(groupId)).entries, records, |records|, FilterId)
      ensures filters.items.Keys == old(filters.items).Keys + RecordIds(records, |records|)
    {
      ghost var items0 := groupFilters.items;
      ghost var keys0 := filters.items.Keys;
      ghost var cached := groupFilters.GetItems(groupId).entries;
      var i := 0;
      CollectedInit(cached, records, FilterId);
      while i < |records|
        invariant 0 <= i <= |records|
        invariant Valid()
        invariant groupFilters.finalized == old(groupFilters.finalized)
        invariant groupFilters.items - {groupId} == items0 - {groupId}
        invariant Collected(groupFilters.GetItems(groupId).entries, cached, records, i, FilterId)
        invariant filters.items.Keys == keys0 + RecordIds(records, i)
      {
        CacheRecord(groupId, records, i, cached, items0, keys0);
        i := i + 1;
      }
    }

    /** One pass of that `foreach`. */
    method CacheRecord(groupId: int, records: seq<Filter>, i: int, ghost cached: seq<(int, Filter)>,
                       ghost items0: map<int, Slot<Filter>>, ghost keys0: set<int>)
      requires 0 <= i < |records| && records[i].groupId == groupId
      requires Valid()
      requires groupFilters.items - {groupId} == items0 - {groupId}
      requires Collected(groupFilters.GetItems(groupId).entries, cached, records, i, FilterId)
      requires filters.items.Keys == keys0 + RecordIds(records, i)
      modifies filters, groupFilters
      ensures Valid()
      ensures groupFilters.finalized == old(groupFilters.finalized)
      ensures groupFilters.items - {groupId} == items0 - {groupId}
      ensures Collected(groupFilters.GetItems(groupId).entries, cached, records, i + 1, FilterId)
      ensures filters.items.Keys == keys0 + RecordIds(records, i + 1)
    {
      ghost var before := groupFilters.GetItems(groupId).entries;
      CacheFilter(records[i]);
      RecordIdsStep(records, i);
      CollectStep(before, cached, records, i, FilterId);
    }

    /** `getFiltersByGroup`: the filters of the group's id. */
    method GetFiltersByGroup(group: Group) returns (r: seq<(int, Filter)>)
      requires Valid() && db.Valid()
      modifies filters, groupFilters
      ensures Valid()
      ensures group.id != 0 ==> groupFilters.IsFinalized(group.id) && r == groupFilters.GetItems(group.id).entries
      ensures group.id == 0 ==> r == []
    {
      r := GetFiltersByGroupId(group.id);
    }

    /**
     * `getFiltersByGroupId`: nothing for group 0; otherwise the group's
     * cached set, completed from the table and finalized and sorted the
     * first time it is asked for.
     */
    method GetFiltersByGroupId(groupId: int) returns (r: seq<(int, Filter)>)
      requires Valid() && db.Valid()
      modifies filters, groupFilters
      ensures Valid()
      ensures groupId == 0 ==> r == [] && unchanged(filters, groupFilters)
      ensures groupId != 0 && old(groupFilters.IsFinalized(groupId)) ==>
        r == old(groupFilters.GetItems(groupId)).entries && unchanged(filters, groupFilters)
      ensures groupId != 0 ==>
        && groupFilters.IsFinalized(groupId)
        && r == groupFilters.GetItems(groupId).entries
        && FiledSet(r, groupId, FilterId, FilterGroup)
      ensures groupId != 0 && !old(groupFilters.IsFinalized(groupId)) ==>
        && SortedBy(r, SortOrderOf)
        && (forall id :: id in db.filters && db.filters[id].groupId == groupId ==> HasKey(r, id))
        && (forall e :: e in r ==> e in old(groupFilters.GetItems(groupId)).entries || (e.0 in db.filters && db.filters[e.0] == e.1))
        && groupFilters.items - {groupId} == old(groupFilters.items) - {groupId}
        && old(filters.items).Keys <= filters.items.Keys
    {
      if groupId == 0 {
        return [];
      }
      if !groupFilters.IsFinalized(groupId) {
        var cached := groupFilters.GetItems(groupId).entries;
        var filterIds := ModelIds(cached, FilterId);
        var records := Select(db.filters, IdsBelow(db.filters, db.nextFilterId),
                              Missing(InGroup(groupId), filterIds, FilterId));
        CacheRecords(groupId, records);
        ghost var filled := groupFilters.GetItems(groupId).entries;
        groupFilters.Finalize(groupId);
        SortGroupFilters(groupId);
        r := groupFilters.GetItems(groupId).entries;
        assert multiset(r) == multiset(filled) by {
          if groupId !in groupFilters.items {
            assert r == [] && filled == [];
          }
        }
        FillComplete(db.filters, db.nextFilterId, FilterId, InGroup(groupId), cached, records, filled, r);
        return;
      }
      r := groupFilters.GetItems(groupId).entries;
    }

    /**
     * `getFilterById`: nothing for id 0; the cached filter when there is
     * one; otherwise the row with that id, cached on the way, or nothing.
     */
    method GetFilterById(filterId: int) returns (r: Option<Filter>)
      requires Valid() && db.Valid()
      modifies filters, groupFilters
      ensures Valid()
      ensures r.Some? ==> r.value.id == filterId && filters.GetItem(filterId) == Some(Single(r.value))
      ensures filterId == 0 ==> r == None && unchanged(filters, groupFilters)
      ensures filterId != 0 && filterId in old(filters.items) ==>
        r == Some(old(filters.items)[filterId].item) && unchanged(filters, groupFilters)
      ensures filterId != 0 && filterId !in old(filters.items) && filterId !in db.filters ==>
        r == None && unchanged(filters, groupFilters)
      ensures filterId != 0 && filterId !in old(filters.items) && filterId in db.filters ==>
        && r == Some(db.filters[filterId])
        && HasKey(groupFilters.GetItems(db.filters[filterId].groupId).entries, filterId)
    {
      if filterId == 0 {
        return None;
      }
      if filters.GetItem(filterId).None? {
        if filterId in db.filters {
          var record := db.filters[filterId];
          assert record.id == filterId;
          CacheFilter(record);
          assert filters.GetItem(filterId) == Some(Single(record));
          assert Lookup(groupFilters.GetItems(record.groupId).entries, filterId) == Some(record);
        }
      }
      var slot := filters.GetItem(filterId);
      if slot.Some? {
        r := Some(slot.value.item);
      } else {
        r := None;
      }
    }

    /**
     * `saveFilter`: `passesValidation` is `!$runValidation ||
     * $model->validate()`. Returns the outcome and the model as the save
     * leaves it (its new id, its defaulted sort order).
     */
    method SaveFilter(model: Filter, passesValidation: bool) returns (r: Outcome<bool, ServiceError>, saved: Filter)
      requires Valid() && db.Valid()
      modifies db, filters, groupFilters
      ensures Valid() && db.Valid()
      ensures db.groups == old(db.groups) && db.elements == old(db.elements)
      ensures db.nextGroupId == old(db.nextGroupId) && db.nextElementId == old(db.nextElementId)
      ensures old(db.nextFilterId) <= db.nextFilterId
      ensures !passesValidation ==>
        r == Done(false) && saved == model && unchanged(db, filters, groupFilters)
      ensures passesValidation && model.id != 0 && model.id !in old(db.filters) ==>
        r == Thrown(SearchGroupFilterNotFound(model.id)) && saved == model && unchanged(db, filters, groupFilters)
      ensures passesValidation && (model.id == 0 || model.id in old(db.filters)) ==>
        && r == Done(true)
        && saved.id == (if model.id != 0 then model.id else old(db.nextFilterId))
        && saved == model.(id := saved.id, sortOrder := if model.sortOrder == 0 then UnsetSortOrder else model.sortOrder)
        && db.filters == old(db.filters)[saved.id := saved]
        && groupFilters.finalized == old(groupFilters.finalized)
        && (model.id == 0 ==> filters.items == old(filters.items)[saved.id := Single(saved)])
        && (model.id != 0 ==> filters.items == old(filters.items))
        && (model.id == 0 ==> (saved.id, saved) in groupFilters.GetItems(saved.groupId).entries)
        && (model.id != 0 && old(db.filters)[model.id].groupId != model.groupId ==>
              !HasKey(groupFilters.GetItems(old(db.filters)[model.id].groupId).entries, model.id))
        && (groupFilters.IsFinalized(saved.groupId) ==>
              SortedBy(groupFilters.GetItems(saved.groupId).entries, SortOrderOf))
        && SavedSets(old(groupFilters.items), groupFilters.items, saved.id, saved, model.id == 0,
                     if model.id != 0 then old(db.filters)[model.id].groupId else model.groupId, model.groupId)
    {
      if !passesValidation {
        return Done(false), model;
      }
      if model.id != 0 && model.id !in db.filters {
        return Thrown(SearchGroupFilterNotFound(model.id)), model;
      }
      saved := WriteFilter(model);
      r := Done(true);
    }

    /** The part of `saveFilter` after the record is found: evict, write, cache, re-sort. */
    method WriteFilter(model: Filter) returns (saved: Filter)
      requires Valid() && db.Valid()
      requires model.id == 0 || model.id in db.filters
      modifies db, filters, groupFilters
      ensures Valid() && db.Valid()
      ensures db.groups == old(db.groups) && db.elements == old(db.elements)
      ensures db.nextGroupId == old(db.nextGroupId) && db.nextElementId == old(db.nextElementId)
      ensures old(db.nextFilterId) <= db.nextFilterId
      ensures saved.id == (if model.id != 0 then model.id else old(db.nextFilterId))
      ensures saved == model.(id := saved.id, sortOrder := if model.sortOrder == 0 then UnsetSortOrder else model.sortOrder)
      ensures db.filters == old(db.filters)[saved.id := saved]
      ensures groupFilters.finalized == old(groupFilters.finalized)
      ensures model.id == 0 ==> filters.items == old(filters.items)[saved.id := Single(saved)]
      ensures model.id != 0 ==> filters.items == old(filters.items)
      ensures model.id == 0 ==> (saved.id, saved) in groupFilters.GetItems(saved.groupId).entries
      ensures model.id != 0 && old(db.filters)[model.id].groupId != model.groupId ==>
        !HasKey(groupFilters.GetItems(old(db.filters)[model.id].groupId).entries, model.id)
      ensures groupFilters.IsFinalized(saved.groupId) ==>
        SortedBy(groupFilters.GetItems(saved.groupId).entries, SortOrderOf)
      ensures SavedSets(old(groupFilters.items), groupFilters.items, saved.id, saved, model.id == 0,
                        if model.id != 0 then old(db.filters)[model.id].groupId else model.groupId, model.groupId)
    {
      ghost var oldGroup := if model.id != 0 then db.filters[model.id].groupId else 0;
      ghost var from := if model.id != 0 then oldGroup else model.groupId;
      if model.id != 0 && db.filters[model.id].groupId != model.groupId {
        groupFilters.RemoveItem(model.id, db.filters[model.id].groupId);
        ReplaceKeepsFiledSets(old(groupFilters.items), oldGroup, groupFilters.GetItems(oldGroup).entries, FilterId, FilterGroup);
        RemovedFromSet(old(groupFilters.items), groupFilters.items, oldGroup, model.id);
      }
      ghost var left := groupFilters.items;
      ghost var removed := groupFilters.GetItems(oldGroup);
      assert model.id != 0 && oldGroup != model.groupId ==> !HasKey(removed.entries, model.id);
      saved := model;
      if model.sortOrder == 0 {
        saved := saved.(sortOrder := UnsetSortOrder);
      }
      var id := db.SaveFilter(saved);
      saved := saved.(id := id);
      CacheAndSort(saved, model.id == 0);
      SavedSetsAfterLeaving(old(groupFilters.items), left, groupFilters.items, saved.id, saved, model.id == 0, from, model.groupId);
    }

    /** `if (!$model->id) { _cacheFilter }` followed by `_sortGroupFilters($model->groupId)`. */
    method CacheAndSort(saved: Filter, isNew: bool)
      requires Valid()
      modifies filters, groupFilters
      ensures Valid()
      ensures groupFilters.finalized == old(groupFilters.finalized)
      ensures isNew ==> filters.items == old(filters.items)[saved.id := Single(saved)]
      ensures !isNew ==> filters.items == old(filters.items)
      ensures isNew ==> (saved.id, saved) in groupFilters.GetItems(saved.groupId).entries
      ensures forall g :: g != saved.groupId ==> groupFilters.GetItems(g) == old(groupFilters.GetItems(g))
      ensures groupFilters.IsFinalized(saved.groupId) ==>
        SortedBy(groupFilters.GetItems(saved.groupId).entries, SortOrderOf)
      ensures SavedSets(old(groupFilters.items), groupFilters.items, saved.id, saved, isNew, saved.groupId, saved.groupId)
    {
      var g := saved.groupId;
      ghost var items0 := groupFilters.items;
      assert EntriesAt(items0, g) == groupFilters.GetItems(g).entries;
      if isNew {
        CacheFilter(saved);
        assert Lookup(groupFilters.GetItems(g).entries, saved.id) == Some(saved);
      }
      ghost var items1 := groupFilters.items;
      ghost var cached := groupFilters.GetItems(g).entries;
      assert isNew ==> (saved.id, saved) in multiset(cached);
      SortGroupFilters(g);
      SavedInPlace(items0, items1, groupFilters.items, saved.id, saved, isNew, g);
    }
  }
}
