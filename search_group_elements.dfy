/**
 * `SearchGroupElements` (src/services/SearchGroupElements.php): the
 * element types each search group searches, read through one MultiCache
 * of sets keyed by group id.
 */
module SearchGroupElementsService {
  import opened Optional
  import opened Records
  import opened MultiCaches
  import opened CacheFill

  /** The comparator `$a->sortOrder - $b->sortOrder`, as a rank. */
  function SortOrderOf(e: Element): int { e.sortOrder }

  /** The rows of group `groupId` (`['groupId' => $groupId]`). */
  function InGroup(groupId: int): Element -> bool
  {
    (e: Element) => e.groupId == groupId
  }

  /** The cache key an element's set is filed under: its group. */
  function ElementGroup(e: Element): int { e.groupId }

  class SearchGroupElements {
    const db: Database
    const groupElements: MultiCache<int, Element>

    ghost predicate Valid()
      reads this, groupElements
    {
      && groupElements.Valid()
      && FiledSets(groupElements.items, ElementId, ElementGroup)
    }

    /** `init`: an empty cache. */
    constructor (db: Database)
      ensures Valid() && this.db == db && fresh(groupElements)
      ensures groupElements.items == map[] && groupElements.finalized == []
    {
      this.db := db;
      groupElements := new MultiCache<int, Element>();
    }

    /** `_cacheSearchElement`: add the model to its group's set under its id. */
    method CacheSearchElement(e: Element)
      requires Valid()
      modifies groupElements
      ensures Valid()
      ensures groupElements.finalized == old(groupElements.finalized)
      ensures var before := old(groupElements.GetItems(e.groupId)).entries;
        groupElements.items == old(groupElements.items)[e.groupId := Set(Put(before, e.id, e))]
    {
      ghost var items0 := groupElements.items;
      assert ElementGroup(e) == e.groupId && ElementId(e) == e.id;
      assert EntriesAt(items0, e.groupId) == groupElements.GetItems(e.groupId).entries;
      assert DistinctKeys(EntriesAt(items0, e.groupId));
      AddKeepsFiledSets(items0, e, ElementId, ElementGroup);
      groupElements.AddItem(e, e.id, e.groupId);
    }

    /** `_sortGroupElements`: order a finalized group set by ascending sort order. */
    method SortGroupElements(groupId: int)
      requires Valid()
      modifies groupElements
      ensures Valid()
      ensures groupElements.finalized == old(groupElements.finalized)
      ensures !groupElements.IsFinalized(groupId) ==> groupElements.items == old(groupElements.items)
      ensures groupElements.items.Keys == old(groupElements.items).Keys
      ensures groupElements.items - {groupId} == old(groupElements.items) - {groupId}
      ensures forall g :: g != groupId ==> groupElements.GetItems(g) == old(groupElements.GetItems(g))
      ensures groupElements.IsFinalized(groupId) && groupId in groupElements.items ==>
        && SortedBy(groupElements.items[groupId].entries, SortOrderOf)
        && multiset(groupElements.items[groupId].entries) == multiset(old(groupElements.items[groupId].entries))
    {
      if !groupElements.IsFinalized(groupId) {
        return;
      }
      ghost var items0 := groupElements.items;
      if groupId in groupElements.items {
        groupElements.SortSet(SortOrderOf, groupId);
        var entries := groupElements.items[groupId].entries;
        forall e | e in entries ensures e in EntriesAt(items0, groupId) {
          assert e in multiset(entries);
        }
        ReplaceKeepsFiledSets(items0, groupId, entries, ElementId, ElementGroup);
        assert groupElements.items == items0[groupId := Set(entries)];
      } else {
        groupElements.SortSet(SortOrderOf, groupId);
      }
    }

    /** The `foreach` of `getSearchElementsByGroupId`: cache each fetched row of the group. */
    method CacheRecords(groupId: int, records: seq<Element>)
      requires Valid()
      requires forall k :: 0 <= k < |records| ==> records[k].groupId == groupId
      modifies groupElements
      ensures Valid()
      ensures groupElements.finalized == old(groupElements.finalized)
      ensures groupElements.items - {groupId} == old(groupElements.items) - {groupId}
      ensures Collected(groupElements.GetItems(groupId).entries, old(groupElements.GetItems(groupId)).entries, records, |records|, ElementId)
    {
      ghost var items0 := groupElements.items;
      ghost var cached := groupElements.GetItems(groupId).entries;
      var i := 0;
      CollectedInit(cached, records, ElementId);
      while i < |records|
        invariant 0 <= i <= |records|
        invariant Valid()
        invariant groupElements.finalized == old(groupElements.finalized)
        invariant groupElements.items - {groupId} == items0 - {groupId}
        invariant Collected(groupElements.GetItems(groupId).entries, cached, records, i, ElementId)
      {
        CacheRecord(groupId, records, i, cached, items0);
        i := i + 1;
      }
    }

    /** One pass of the `foreach` of `getSearchElementsByGroupId`. */
    method CacheRecord(groupId: int, records: seq<Element>, i: int, ghost cached: seq<(int, Element)>,
                       ghost items0: map<int, Slot<Element>>)
      requires 0 <= i < |records| && records[i].groupId == groupId
      requires Valid()
      requires groupElements.items - {groupId} == items0 - {groupId}
      requires Collected(groupElements.GetItems(groupId).entries, cached, records, i, ElementId)
      modifies groupElements
      ensures Valid()
      ensures groupElements.finalized == old(groupElements.finalized)
      ensures groupElements.items - {groupId} == items0 - {groupId}
      ensures Collected(groupElements.GetItems(groupId).entries, cached, records, i + 1, ElementId)
    {
      ghost var before := groupElements.GetItems(groupId).entries;
      assert DistinctKeys(before);
      CacheSearchElement(records[i]);
      assert groupElements.GetItems(groupId).entries == Put(before, records[i].id, records[i]);
      CollectStep(before, cached, records, i, ElementId);
    }

    /** `getSearchElementsByGroup`: the elements of the group's id. */
    method GetSearchElementsByGroup(group: Group) returns (r: seq<(int, Element)>)
      requires Valid() && db.Valid()
      modifies groupElements
      ensures Valid()
      ensures group.id != 0 ==> groupElements.IsFinalized(group.id) && r == groupElements.GetItems(group.id).entries
      ensures group.id == 0 ==> r == []
    {
      r := GetSearchElementsByGroupId(group.id);
    }

    /**
     * `getSearchElementsByGroupId`: nothing for group 0; otherwise the
     * group's cached set, completed from the table and finalized and
     * sorted the first time it is asked for.
     */
    method GetSearchElementsByGroupId(groupId: int) returns (r: seq<(int, Element)>)
      requires Valid() && db.Valid()
      modifies groupElements
      ensures Valid()
      ensures groupId == 0 ==> r == [] && unchanged(groupElements)
      ensures groupId != 0 && old(groupElements.IsFinalized(groupId)) ==>
        r == old(groupElements.GetItems(groupId)).entries && unchanged(groupElements)
      ensures groupId != 0 ==>
        && groupElements.IsFinalized(groupId)
        && r == groupElements.GetItems(groupId).entries
        && FiledSet(r, groupId, ElementId, ElementGroup)
      ensures groupId != 0 && !old(groupElements.IsFinalized(groupId)) ==>
        && SortedBy(r, SortOrderOf)
        && (forall id :: id in db.elements && db.elements[id].groupId == groupId ==> HasKey(r, id))
        && (forall e :: e in r ==> e in old(groupElements.GetItems(groupId)).entries || (e.0 in db.elements && db.elements[e.0] == e.1))
        && groupElements.items - {groupId} == old(groupElements.items) - {groupId}
    {
      if groupId == 0 {
        return [];
      }
      if !groupElements.IsFinalized(groupId) {
        var cached := groupElements.GetItems(groupId).entries;
        var elementIds := ModelIds(cached, ElementId);
        var records := Select(db.elements, IdsBelow(db.elements, db.nextElementId),
                              Missing(InGroup(groupId), elementIds, ElementId));
        CacheRecords(groupId, records);
        ghost var filled := groupElements.GetItems(groupId).entries;
        groupElements.Finalize(groupId);
        SortGroupElements(groupId);
        r := groupElements.GetItems(groupId).entries;
        assert multiset(r) == multiset(filled) by {
          if groupId !in groupElements.items {
            assert r == [] && filled == [];
          }
        }
        FillComplete(db.elements, db.nextElementId, ElementId, InGroup(groupId), cached, records, filled, r);
        return;
      }
      r := groupElements.GetItems(groupId).entries;
    }

    /**
     * `saveSearchElement`: `passesValidation` is `!$runValidation ||
     * $model->validate()`. Returns the outcome and the model as the save
     * leaves it (its new id, its defaulted sort order).
     */
    method SaveSearchElement(model: Element, passesValidation: bool) returns (r: Outcome<bool, ServiceError>, saved: Element)
      requires Valid() && db.Valid()
      modifies db, groupElements
      ensures Valid() && db.Valid()
      ensures db.groups == old(db.groups) && db.filters == old(db.filters)
      ensures db.nextGroupId == old(db.nextGroupId) && db.nextFilterId == old(db.nextFilterId)
      ensures old(db.nextElementId) <= db.nextElementId
      ensures !passesValidation ==>
        r == Done(false) && saved == model && unchanged(db) && unchanged(groupElements)
      ensures passesValidation && model.id != 0 && model.id !in old(db.elements) ==>
        r == Thrown(SearchGroupElementNotFound(model.id)) && saved == model && unchanged(db) && unchanged(groupElements)
      ensures passesValidation && (model.id == 0 || model.id in old(db.elements)) ==>
        && r == Done(true)
        && saved.id == (if model.id != 0 then model.id else old(db.nextElementId))
        && saved == model.(id := saved.id, sortOrder := if model.sortOrder == 0 then UnsetSortOrder else model.sortOrder)
        && db.elements == old(db.elements)[saved.id := saved]
        && groupElements.finalized == old(groupElements.finalized)
        && (model.id == 0 ==> (saved.id, saved) in groupElements.GetItems(saved.groupId).entries)
        && (model.id != 0 && old(db.elements)[model.id].groupId != model.groupId ==>
              !HasKey(groupElements.GetItems(old(db.elements)[model.id].groupId).entries, model.id))
        && (groupElements.IsFinalized(saved.groupId) ==>
              SortedBy(groupElements.GetItems(saved.groupId).entries, SortOrderOf))
        && SavedSets(old(groupElements.items), groupElements.items, saved.id, saved, model.id == 0,
                     if model.id != 0 then old(db.elements)[model.id].groupId else model.groupId, model.groupId)
    {
      if !passesValidation {
        return Done(false), model;
      }
      if model.id != 0 && model.id !in db.elements {
        return Thrown(SearchGroupElementNotFound(model.id)), model;
      }
      saved := WriteElement(model);
      r := Done(true);
    }

    /** The part of `saveSearchElement` after the record is found: evict, write, cache, re-sort. */
    method WriteElement(model: Element) returns (saved: Element)
      requires Valid() && db.Valid()
      requires model.id == 0 || model.id in db.elements
      modifies db, groupElements
      ensures Valid() && db.Valid()
      ensures db.groups == old(db.groups) && db.filters == old(db.filters)
      ensures db.nextGroupId == old(db.nextGroupId) && db.nextFilterId == old(db.nextFilterId)
      ensures old(db.nextElementId) <= db.nextElementId
      ensures saved.id == (if model.id != 0 then model.id else old(db.nextElementId))
      ensures saved == model.(id := saved.id, sortOrder := if model.sortOrder == 0 then UnsetSortOrder else model.sortOrder)
      ensures db.elements == old(db.elements)[saved.id := saved]
      ensures groupElements.finalized == old(groupElements.finalized)
      ensures model.id == 0 ==> (saved.id, saved) in groupElements.GetItems(saved.groupId).entries
      ensures model.id != 0 && old(db.elements)[model.id].groupId != model.groupId ==>
        !HasKey(groupElements.GetItems(old(db.elements)[model.id].groupId).entries, model.id)
      ensures groupElements.IsFinalized(saved.groupId) ==>
        SortedBy(groupElements.GetItems(saved.groupId).entries, SortOrderOf)
      ensures SavedSets(old(groupElements.items), groupElements.items, saved.id, saved, model.id == 0,
                        if model.id != 0 then old(db.elements)[model.id].groupId else model.groupId, model.groupId)
    {
      ghost var from := if model.id != 0 then db.elements[model.id].groupId else model.groupId;
      if model.id != 0 && db.elements[model.id].groupId != model.groupId {
        LeaveGroup(model.id, db.elements[model.id].groupId);
      }
      ghost var left := groupElements.items;
      saved := model;
      if model.sortOrder == 0 {
        saved := saved.(sortOrder := UnsetSortOrder);
      }
      var id := db.SaveElement(saved);
      saved := saved.(id := id);
      CacheAndSort(saved, model.id == 0);
      SavedSetsAfterLeaving(old(groupElements.items), left, groupElements.items, saved.id, saved, model.id == 0, from, model.groupId);
    }

    /** `removeItem($model->id, $record->groupId)`: the element leaves its old group's set. */
    method LeaveGroup(id: int, groupId: int)
      requires Valid()
      modifies groupElements
      ensures Valid()
      ensures groupElements.finalized == old(groupElements.finalized)
      ensures !HasKey(groupElements.GetItems(groupId).entries, id)
      ensures forall g :: g != groupId ==> groupElements.GetItems(g) == old(groupElements.GetItems(g))
      ensures EntriesAt(groupElements.items, groupId) == Remove(EntriesAt(old(groupElements.items), groupId), id)
      ensures forall g :: g != groupId ==> EntriesAt(groupElements.items, g) == EntriesAt(old(groupElements.items), g)
    {
      groupElements.RemoveItem(id, groupId);
      RemovedFromSet(old(groupElements.items), groupElements.items, groupId, id);
    }

    /** `if (!$model->id) { _cacheSearchElement }` followed by `_sortGroupElements($model->groupId)`. */
    method CacheAndSort(saved: Element, isNew: bool)
      requires Valid()
      modifies groupElements
      ensures Valid()
      ensures groupElements.finalized == old(groupElements.finalized)
      ensures isNew ==> (saved.id, saved) in groupElements.GetItems(saved.groupId).entries
      ensures forall g :: g != saved.groupId ==> groupElements.GetItems(g) == old(groupElements.GetItems(g))
      ensures groupElements.IsFinalized(saved.groupId) ==>
        SortedBy(groupElements.GetItems(saved.groupId).entries, SortOrderOf)
      ensures SavedSets(old(groupElements.items), groupElements.items, saved.id, saved, isNew, saved.groupId, saved.groupId)
    {
      var g := saved.groupId;
      ghost var items0 := groupElements.items;
      assert EntriesAt(items0, g) == groupElements.GetItems(g).entries;
      if isNew {
        CacheSearchElement(saved);
        assert Lookup(groupElements.GetItems(g).entries, saved.id) == Some(saved);
      }
      ghost var items1 := groupElements.items;
      ghost var cached := groupElements.GetItems(g).entries;
      assert isNew ==> (saved.id, saved) in multiset(cached);
      SortGroupElements(g);
      SavedInPlace(items0, items1, groupElements.items, saved.id, saved, isNew, g);
    }
  }
}
