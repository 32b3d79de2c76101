/**
 * `SearchGroups` (src/services/SearchGroups.php): the search groups, read
 * through four MultiCaches — one set of all groups under the default key,
 * single groups by id, single groups by handle, and sets of groups by site.
 */
module SearchGroupsService {
  import opened Optional
  import opened Records
  import opened MultiCaches
  import opened CacheFill
  import Elements = SearchGroupElementsService
  import Filters = SearchGroupFiltersService
  import Models = SearchGroupModels

  /** The comparator of `_sortSiteSearchGroups`, `$a->sortOrder - $b->sortOrder`. */
  function SortOrderOf(g: Group): int { g.sortOrder }

  /** The comparator of `_sortAllSearchGroups`, `$a->id - $b->id`. */
  function IdOrder(g: Group): int { g.id }

  function GroupHandle(g: Group): string { g.handle }

  /** The cache key a group's site set is filed under. */
  function GroupSite(g: Group): int { g.siteId }

  /** Every group is filed in the one 'all' set. */
  function AllKey(g: Group): int { DefaultKey }

  /** `['siteId' => $siteId]`. */
  function InSite(siteId: int): Group -> bool
  {
    (g: Group) => g.siteId == siteId
  }

  /** `['handle' => $handle]`. */
  function HasHandle(handle: string): Group -> bool
  {
    (g: Group) => g.handle == handle
  }

  /** No condition besides the `not in` of the 'all' query. */
  function AnyGroup(): Group -> bool
  {
    (g: Group) => true
  }

  /** A cache of single groups, each under the key `keyOf` gives it. */
  ghost predicate ByKey<K>(items: map<K, Slot<Group>>, keyOf: Group -> K)
  {
    forall k :: k in items ==> items[k].Single? && keyOf(items[k].item) == k
  }

  /**
   * The sort orders `reorderGroups` has written after its first `n` ids:
   * the same rows, each differing from `before` at most in its sort order;
   * rows not named keep theirs, and a named row holds one more than the
   * position where it was last named.
   */
  ghost predicate SortOrdersWritten(table: map<int, Group>, before: map<int, Group>, ids: seq<int>, n: int)
    requires 0 <= n <= |ids|
  {
    && table.Keys == before.Keys
    && (forall id :: id in table ==> table[id] == before[id].(sortOrder := table[id].sortOrder))
    && (forall id :: id in table && id !in ids[..n] ==> table[id] == before[id])
    && (forall k :: 0 <= k < n && LastWrite(ids[..n], k) ==> ids[k] in table && table[ids[k]].sortOrder == k + 1)
  }

  lemma SortOrdersInit(table: map<int, Group>, ids: seq<int>)
    ensures SortOrdersWritten(table, table, ids, 0)
  {
  }

  /** `$record->sortOrder = $sortOrder; $record->save()` for the next id. */
  lemma SortOrdersStep(table: map<int, Group>, before: map<int, Group>, ids: seq<int>, n: int)
    requires 0 <= n < |ids| && ids[n] in table
    requires SortOrdersWritten(table, before, ids, n)
    ensures SortOrdersWritten(table[ids[n] := table[ids[n]].(sortOrder := n + 1)], before, ids, n + 1)
  {
    var id := ids[n];
    var table' := table[id := table[id].(sortOrder := n + 1)];
    assert ids[..n + 1] == ids[..n] + [id];
    forall i | i in table' && i !in ids[..n + 1] ensures table'[i] == before[i] {
      assert i !in ids[..n];
    }
    forall k | 0 <= k < n + 1 && LastWrite(ids[..n + 1], k) ensures ids[k] in table' && table'[ids[k]].sortOrder == k + 1 {
      if k < n {
        assert ids[..n + 1][n] == id;
        assert ids[k] != id;
        assert LastWrite(ids[..n], k) by {
          forall j | k < j < n ensures ids[..n][j] != ids[..n][k] {
            assert ids[..n + 1][j] == ids[..n][j] && ids[..n + 1][k] == ids[..n][k];
          }
        }
      }
    }
  }

  /**
   * Whether `saveGroup` drops the stored handle from the by-handle cache,
   * as line 238 is written: its condition repeats the site test of the
   * line above, so the entry goes when the site changes.
   */
  function EvictsHandleAsWritten(stored: Group, model: Group): bool
  {
    model.id != 0 && stored.siteId != model.siteId
  }

  /** The same decision as the comment above line 238 states it: the entry goes when the handle changes. */
  function EvictsHandle(stored: Group, model: Group): bool
  {
    model.id != 0 && stored.handle != model.handle
  }

  /**
   * Renaming a group without moving it: as written the old handle stays
   * cached, and `getGroupByHandle` of the old handle keeps answering with
   * the group after the rename.
   */
  lemma RenameKeepsOldHandleAsWritten()
    ensures var stored := Group(1, 1, "news", "News", "search/news", 10, "score", 1);
            var model := stored.(handle := "articles");
            stored.handle != model.handle && !EvictsHandleAsWritten(stored, model) && EvictsHandle(stored, model)
  {
  }

  /**
   * `getAllGroups` finalizes and sorts a site's set when it meets the
   * first fetched row of that site; later rows of the same site are only
   * added to the end. Two rows of site 1 fetched in id order, the second
   * with the lower sort order, leave that finalized set out of order.
   */
  lemma LaterSiteRowUnsorted()
    ensures var first := Group(1, 1, "news", "News", "", 10, "score", 2);
            var second := Group(2, 1, "blog", "Blog", "", 10, "score", 1);
            var atFirstRow := Put([], first.id, first);
            && SortedBy(atFirstRow, SortOrderOf)
            && !SortedBy(Put(atFirstRow, second.id, second), SortOrderOf)
  {
    var first := Group(1, 1, "news", "News", "", 10, "score", 2);
    var second := Group(2, 1, "blog", "Blog", "", 10, "score", 1);
    var empty: seq<(int, Group)> := [];
    assert !HasKey(empty, 1);
    var atFirstRow := Put(empty, 1, first);
    assert atFirstRow == [(1, first)];
    assert !HasKey(atFirstRow, 2) by { HasKeyCons(atFirstRow, 2); }
    var both := Put(atFirstRow, 2, second);
    assert both == [(1, first), (2, second)];
    assert SortOrderOf(both[0].1) > SortOrderOf(both[1].1);
  }

  /** The corrected decision drops the old handle exactly when the stored group is renamed. */
  lemma EvictsHandleIffRenamed(stored: Group, model: Group)
    requires model.id != 0
    ensures EvictsHandle(stored, model) <==> stored.handle != model.handle
    ensures EvictsHandleAsWritten(stored, model) <==> stored.siteId != model.siteId
  {
  }

  /**
   * What `saveGroup` does to the four caches when it writes `g`, the group
   * as saved; `stored` is the row it replaced, `None` for a new group. The
   * site sets lose the group from the stored site and take it, sorted, in
   * the new one; the 'all' set is re-sorted; a new group is cached under
   * its id and handle; a renamed one loses its stored handle.
   */
  ghost predicate CachesSaved(all0: map<int, Slot<Group>>, all1: map<int, Slot<Group>>,
                              ids0: map<int, Slot<Group>>, ids1: map<int, Slot<Group>>,
                              handles0: map<string, Slot<Group>>, handles1: map<string, Slot<Group>>,
                              sites0: map<int, Slot<Group>>, sites1: map<int, Slot<Group>>,
                              g: Group, stored: Option<Group>)
  {
    && SavedSets(sites0, sites1, g.id, g, stored.None?, if stored.Some? then stored.value.siteId else g.siteId, g.siteId)
    && SavedSets(all0, all1, g.id, g, stored.None?, DefaultKey, DefaultKey)
    && ids1 == (if stored.None? then ids0[g.id := Single(g)] else ids0)
    && handles1 == (if stored.None? then handles0[g.handle := Single(g)]
                    else if EvictsHandle(stored.value, g) then handles0 - {stored.value.handle}
                    else handles0)
  }

  /**
   * The list `saveGroup` resaves, as it is written: element `k` moved into
   * the group and given sort order k + 1, under the id its save returned.
   */
  function ResavedElements(list: seq<Element>, groupId: int, ids: seq<int>): (r: seq<Element>)
    requires |ids| == |list|
    ensures |r| == |list|
    ensures forall k :: 0 <= k < |r| ==> r[k] == list[k].(id := ids[k], groupId := groupId, sortOrder := k + 1)
  {
    seq(|list|, k requires 0 <= k < |list| => list[k].(id := ids[k], groupId := groupId, sortOrder := k + 1))
  }

  /** The same for the filters. */
  function ResavedFilters(list: seq<Filter>, groupId: int, ids: seq<int>): (r: seq<Filter>)
    requires |ids| == |list|
    ensures |r| == |list|
    ensures forall k :: 0 <= k < |r| ==> r[k] == list[k].(id := ids[k], groupId := groupId, sortOrder := k + 1)
  {
    seq(|list|, k requires 0 <= k < |list| => list[k].(id := ids[k], groupId := groupId, sortOrder := k + 1))
  }

  /** Resaving one more element appends its saved row. */
  lemma ResavedElementsSnoc(list: seq<Element>, i: int, groupId: int, ids: seq<int>, id: int)
    requires 0 <= i < |list| && |ids| == i
    ensures ResavedElements(list[..i + 1], groupId, ids + [id])
         == ResavedElements(list[..i], groupId, ids) + [list[i].(id := id, groupId := groupId, sortOrder := i + 1)]
  {
  }

  /** The same for the filters. */
  lemma ResavedFiltersSnoc(list: seq<Filter>, i: int, groupId: int, ids: seq<int>, id: int)
    requires 0 <= i < |list| && |ids| == i
    ensures ResavedFilters(list[..i + 1], groupId, ids + [id])
         == ResavedFilters(list[..i], groupId, ids) + [list[i].(id := id, groupId := groupId, sortOrder := i + 1)]
  {
  }

  /** Some element of the list fails validation once moved into the group at its position. */
  ghost predicate SomeElementInvalid(list: seq<Element>, groupId: int, valid: Element -> bool)
  {
    exists k :: 0 <= k < |list| && !valid(list[k].(groupId := groupId, sortOrder := k + 1))
  }

  /** The same for the filters. */
  ghost predicate SomeFilterInvalid(list: seq<Filter>, groupId: int, valid: Filter -> bool)
  {
    exists k :: 0 <= k < |list| && !valid(list[k].(groupId := groupId, sortOrder := k + 1))
  }

  class SearchGroups {
    const db: Database
    const allGroups: MultiCache<int, Group>
    const byId: MultiCache<int, Group>
    const byHandle: MultiCache<string, Group>
    const bySite: MultiCache<int, Group>

    ghost predicate Valid()
      reads this, allGroups, byId, byHandle, bySite
    {
      && allGroups != byId && allGroups != bySite && byId != bySite
      && allGroups.Valid() && byId.Valid() && byHandle.Valid() && bySite.Valid()
      && ByKey(byId.items, GroupId)
      && ByKey(byHandle.items, GroupHandle)
      && FiledSets(allGroups.items, GroupId, AllKey)
      && FiledSets(bySite.items, GroupId, GroupSite)
    }

    /**
     * The caches once `saveGroup` has written `g` over `stored` (`None` for
     * a new group), from the caches `all0`, `ids0`, `handles0` and `sites0`
     * it started with: a new group is cached under its id and handle and in
     * its two sets; a moved group is out of its old site set; a renamed
     * group's old handle is evicted and no longer finalized; the finalized
     * sets it is in are sorted; and the four caches changed as
     * `CachesSaved` says.
     */
    ghost predicate SavedInCaches(all0: map<int, Slot<Group>>, ids0: map<int, Slot<Group>>,
                                  handles0: map<string, Slot<Group>>, sites0: map<int, Slot<Group>>,
                                  g: Group, stored: Option<Group>)
      reads this, allGroups, byId, byHandle, bySite
    {
      && (stored.None? ==>
            && byId.GetItem(g.id) == Some(Single(g)) && byHandle.GetItem(g.handle) == Some(Single(g))
            && (g.id, g) in EntriesAt(allGroups.items, DefaultKey) && (g.id, g) in EntriesAt(bySite.items, g.siteId))
      && (bySite.IsFinalized(g.siteId) ==> SortedBy(EntriesAt(bySite.items, g.siteId), SortOrderOf))
      && (allGroups.IsFinalized(DefaultKey) ==> SortedBy(EntriesAt(allGroups.items, DefaultKey), IdOrder))
      && (stored.Some? && stored.value.siteId != g.siteId ==> !HasKey(EntriesAt(bySite.items, stored.value.siteId), g.id))
      && (stored.Some? && EvictsHandle(stored.value, g) ==>
            stored.value.handle !in byHandle.items && !byHandle.IsFinalized(stored.value.handle))
      && CachesSaved(all0, allGroups.items, ids0, byId.items, handles0, byHandle.items, sites0, bySite.items, g, stored)
    }

    /** Where `_cacheSearchGroup` puts a group: under its id and its handle, and in the 'all' set and its site's set. */
    ghost predicate Cached(g: Group)
      reads this, allGroups, byId, byHandle, bySite
    {
      && byId.GetItem(g.id) == Some(Single(g)) && byId.IsFinalized(g.id)
      && byHandle.GetItem(g.handle) == Some(Single(g)) && byHandle.IsFinalized(g.handle)
      && Lookup(EntriesAt(allGroups.items, DefaultKey), g.id) == Some(g)
      && Lookup(EntriesAt(bySite.items, g.siteId), g.id) == Some(g)
    }

    /** `init`: four empty caches. */
    constructor (db: Database)
      ensures Valid() && this.db == db
      ensures fresh(allGroups) && fresh(byId) && fresh(byHandle) && fresh(bySite)
      ensures allGroups.items == map[] && byId.items == map[] && byHandle.items == map[] && bySite.items == map[]
      ensures allGroups.finalized == [] && byId.finalized == [] && byHandle.finalized == [] && bySite.finalized == []
    {
      this.db := db;
      allGroups := new MultiCache<int, Group>();
      byId := new MultiCache<int, Group>();
      byHandle := new MultiCache<string, Group>();
      bySite := new MultiCache<int, Group>();
    }

    /** `_cacheSearchGroup`: the group into all four caches, its id and handle entries finalized. */
    method CacheSearchGroup(g: Group)
      requires Valid()
      modifies allGroups, byId, byHandle, bySite
      ensures Valid() && Cached(g)
      ensures byId.items == old(byId.items)[g.id := Single(g)]
      ensures forall k :: byId.IsFinalized(k) <==> k == g.id || old(byId.IsFinalized(k))
      ensures byHandle.items == old(byHandle.items)[g.handle := Single(g)]
      ensures forall h :: byHandle.IsFinalized(h) <==> h == g.handle || old(byHandle.IsFinalized(h))
      ensures var before := old(allGroups.GetItems(DefaultKey)).entries;
        allGroups.items == old(allGroups.items)[DefaultKey := Set(Put(before, g.id, g))]
      ensures var before := old(bySite.GetItems(g.siteId)).entries;
        bySite.items == old(bySite.items)[g.siteId := Set(Put(before, g.id, g))]
      ensures allGroups.finalized == old(allGroups.finalized) && bySite.finalized == old(bySite.finalized)
    {
      FileSingles(g);
      FileInSets(g);
    }

    /** The id and handle halves of `_cacheSearchGroup`. */
    method FileSingles(g: Group)
      requires Valid()
      modifies byId, byHandle
      ensures Valid()
      ensures byId.items == old(byId.items)[g.id := Single(g)]
      ensures forall k :: byId.IsFinalized(k) <==> k == g.id || old(byId.IsFinalized(k))
      ensures byHandle.items == old(byHandle.items)[g.handle := Single(g)]
      ensures forall h :: byHandle.IsFinalized(h) <==> h == g.handle || old(byHandle.IsFinalized(h))
    {
      FileById(g);
      FileByHandle(g);
    }

    /** The 'all' and site halves of `_cacheSearchGroup`. */
    method FileInSets(g: Group)
      requires Valid()
      modifies allGroups, bySite
      ensures Valid()
      ensures var before := old(allGroups.GetItems(DefaultKey)).entries;
        allGroups.items == old(allGroups.items)[DefaultKey := Set(Put(before, g.id, g))]
      ensures var before := old(bySite.GetItems(g.siteId)).entries;
        bySite.items == old(bySite.items)[g.siteId := Set(Put(before, g.id, g))]
      ensures allGroups.finalized == old(allGroups.finalized) && bySite.finalized == old(bySite.finalized)
      ensures Lookup(EntriesAt(allGroups.items, DefaultKey), g.id) == Some(g)
      ensures Lookup(EntriesAt(bySite.items, g.siteId), g.id) == Some(g)
    {
      FileInAll(g);
      FileInSite(g);
    }

    /** `$this->_searchGroups->setItem($group, $group->id)` and `finalize($group->id)`. */
    method FileById(g: Group)
      requires Valid()
      modifies byId
      ensures Valid()
      ensures byId.items == old(byId.items)[g.id := Single(g)]
      ensures forall k :: byId.IsFinalized(k) <==> k == g.id || old(byId.IsFinalized(k))
      ensures byId.GetItem(g.id) == Some(Single(g))
    {
      ghost var items0 := byId.items;
      byId.SetItem(g, g.id);
      byId.Finalize(g.id);
      forall k | k in byId.items ensures byId.items[k].Single? && GroupId(byId.items[k].item) == k {
        if k != g.id {
          assert byId.items[k] == items0[k];
        }
      }
    }

    /** `$this->_searchGroupsByHandle->setItem($group, $group->handle)` and `finalize($group->handle)`. */
    method FileByHandle(g: Group)
      requires Valid()
      modifies byHandle
      ensures Valid()
      ensures byHandle.items == old(byHandle.items)[g.handle := Single(g)]
      ensures forall h :: byHandle.IsFinalized(h) <==> h == g.handle || old(byHandle.IsFinalized(h))
      ensures byHandle.GetItem(g.handle) == Some(Single(g))
    {
      ghost var items0 := byHandle.items;
      byHandle.SetItem(g, g.handle);
      byHandle.Finalize(g.handle);
      forall h | h in byHandle.items ensures byHandle.items[h].Single? && GroupHandle(byHandle.items[h].item) == h {
        if h != g.handle {
          assert byHandle.items[h] == items0[h];
        }
      }
    }

    /** `$this->_allSearchGroups->addItem($group, $group->id)`. */
    method FileInAll(g: Group)
      requires Valid()
      modifies allGroups
      ensures Valid()
      ensures allGroups.finalized == old(allGroups.finalized)
      ensures var before := old(allGroups.GetItems(DefaultKey)).entries;
        allGroups.items == old(allGroups.items)[DefaultKey := Set(Put(before, g.id, g))]
      ensures Lookup(allGroups.GetItems(DefaultKey).entries, g.id) == Some(g)
    {
      ghost var items0 := allGroups.items;
      assert AllKey(g) == DefaultKey && GroupId(g) == g.id;
      assert EntriesAt(items0, DefaultKey) == allGroups.GetItems(DefaultKey).entries;
      assert DistinctKeys(EntriesAt(items0, DefaultKey));
      AddKeepsFiledSets(items0, g, GroupId, AllKey);
      allGroups.AddItem(g, g.id, DefaultKey);
    }

    /** `$this->_siteSearchGroups->addItem($group, $group->id, $group->siteId)`. */
    method FileInSite(g: Group)
      requires Valid()
      modifies bySite
      ensures Valid()
      ensures bySite.finalized == old(bySite.finalized)
      ensures var before := old(bySite.GetItems(g.siteId)).entries;
        bySite.items == old(bySite.items)[g.siteId := Set(Put(before, g.id, g))]
      ensures Lookup(bySite.GetItems(g.siteId).entries, g.id) == Some(g)
    {
      ghost var items0 := bySite.items;
      assert GroupSite(g) == g.siteId && GroupId(g) == g.id;
      assert EntriesAt(items0, g.siteId) == bySite.GetItems(g.siteId).entries;
      assert DistinctKeys(EntriesAt(items0, g.siteId));
      AddKeepsFiledSets(items0, g, GroupId, GroupSite);
      bySite.AddItem(g, g.id, g.siteId);
    }

    /** `_sortSiteSearchGroups`: order a finalized site set by ascending sort order. */
    method SortSiteSearchGroups(siteId: int)
      requires Valid()
      modifies bySite
      ensures Valid()
      ensures bySite.finalized == old(bySite.finalized)
      ensures !bySite.IsFinalized(siteId) ==> bySite.items == old(bySite.items)
      ensures bySite.items.Keys == old(bySite.items).Keys
      ensures bySite.items - {siteId} == old(bySite.items) - {siteId}
      ensures forall s :: s != siteId ==> bySite.GetItems(s) == old(bySite.GetItems(s))
      ensures bySite.IsFinalized(siteId) ==>
        && SortedBy(bySite.GetItems(siteId).entries, SortOrderOf)
        && multiset(bySite.GetItems(siteId).entries) == multiset(old(bySite.GetItems(siteId)).entries)
      ensures forall s :: s != siteId ==> EntriesAt(bySite.items, s) == EntriesAt(old(bySite.items), s)
      ensures bySite.IsFinalized(siteId) ==>
        && SortedBy(EntriesAt(bySite.items, siteId), SortOrderOf)
        && multiset(EntriesAt(bySite.items, siteId)) == multiset(EntriesAt(old(bySite.items), siteId))
    {
      if !bySite.IsFinalized(siteId) {
        return;
      }
      ghost var items0 := bySite.items;
      if siteId in bySite.items {
        bySite.SortSet(SortOrderOf, siteId);
        var entries := bySite.items[siteId].entries;
        forall e | e in entries ensures e in EntriesAt(items0, siteId) {
          assert e in multiset(entries);
        }
        ReplaceKeepsFiledSets(items0, siteId, entries, GroupId, GroupSite);
        assert bySite.items == items0[siteId := Set(entries)];
      } else {
        bySite.SortSet(SortOrderOf, siteId);
      }
    }

    /** `_sortAllSearchGroups`: order the finalized 'all' set by ascending id. */
    method SortAllSearchGroups()
      requires Valid()
      modifies allGroups
      ensures Valid()
      ensures allGroups.finalized == old(allGroups.finalized)
      ensures !allGroups.IsFinalized(DefaultKey) ==> allGroups.items == old(allGroups.items)
      ensures allGroups.items.Keys == old(allGroups.items).Keys
      ensures allGroups.items - {DefaultKey} == old(allGroups.items) - {DefaultKey}
      ensures allGroups.IsFinalized(DefaultKey) ==>
        && SortedBy(allGroups.GetItems(DefaultKey).entries, IdOrder)
        && multiset(allGroups.GetItems(DefaultKey).entries) == multiset(old(allGroups.GetItems(DefaultKey)).entries)
      ensures multiset(EntriesAt(allGroups.items, DefaultKey)) == multiset(EntriesAt(old(allGroups.items), DefaultKey))
    {
      if !allGroups.IsFinalized(DefaultKey) {
        return;
      }
      ghost var items0 := allGroups.items;
      if DefaultKey in allGroups.items {
        allGroups.SortSet(IdOrder, DefaultKey);
        var entries := allGroups.items[DefaultKey].entries;
        forall e | e in entries ensures e in EntriesAt(items0, DefaultKey) {
          assert e in multiset(entries);
        }
        ReplaceKeepsFiledSets(items0, DefaultKey, entries, GroupId, AllKey);
        assert allGroups.items == items0[DefaultKey := Set(entries)];
      } else {
        allGroups.SortSet(IdOrder, DefaultKey);
      }
    }

    /** The group a single-item slot holds, as `getItem` hands it back. */
    function ItemOf(slot: Option<Slot<Group>>): Option<Group>
    {
      if slot.Some? && slot.value.Single? then Some(slot.value.item) else None
    }

    /**
     * `getGroupById`: the cached group once its id is finalized; otherwise
     * the row with that id, cached on the way, or nothing.
     */
    method GetGroupById(groupId: int) returns (r: Option<Group>)
      requires Valid() && db.Valid()
      modifies allGroups, byId, byHandle, bySite
      ensures Valid()
      ensures r.Some? ==> r.value.id == groupId && byId.GetItem(groupId) == Some(Single(r.value))
      ensures old(byId.IsFinalized(groupId)) ==>
        r == ItemOf(old(byId.GetItem(groupId))) && unchanged(allGroups, byId, byHandle, bySite)
      ensures !old(byId.IsFinalized(groupId)) && groupId !in db.groups ==>
        r == None && unchanged(allGroups, byId, byHandle, bySite)
      ensures !old(byId.IsFinalized(groupId)) && groupId in db.groups ==>
        r == Some(db.groups[groupId]) && Cached(db.groups[groupId])
    {
      if !byId.IsFinalized(groupId) {
        if groupId !in db.groups {
          return None;
        }
        var record := db.groups[groupId];
        assert record.id == groupId;
        CacheSearchGroup(record);
        assert byId.GetItem(groupId) == Some(Single(record));
        return Some(record);
      }
      r := ItemOf(byId.GetItem(groupId));
    }

    /**
     * `getGroupByHandle`: the cached group once its handle is finalized;
     * otherwise the first row with that handle, cached on the way, or nothing.
     */
    method GetGroupByHandle(handle: string) returns (r: Option<Group>)
      requires Valid() && db.Valid()
      modifies allGroups, byId, byHandle, bySite
      ensures Valid()
      ensures r.Some? ==> r.value.handle == handle && byHandle.GetItem(handle) == Some(Single(r.value))
      ensures old(byHandle.IsFinalized(handle)) ==>
        r == ItemOf(old(byHandle.GetItem(handle))) && unchanged(allGroups, byId, byHandle, bySite)
      ensures !old(byHandle.IsFinalized(handle)) && (forall id :: id in db.groups ==> db.groups[id].handle != handle) ==>
        r == None && unchanged(allGroups, byId, byHandle, bySite)
      ensures !old(byHandle.IsFinalized(handle)) && (exists id :: id in db.groups && db.groups[id].handle == handle) ==>
        && r.Some? && r.value.id in db.groups && db.groups[r.value.id] == r.value
        && Cached(r.value)
    {
      if !byHandle.IsFinalized(handle) {
        var rows := Select(db.groups, IdsBelow(db.groups, db.nextGroupId), HasHandle(handle));
        assert KeyedBelow(db.groups, GroupId, db.nextGroupId);
        if rows == [] {
          forall id | id in db.groups ensures db.groups[id].handle != handle {
            assert id in IdsBelow(db.groups, db.nextGroupId);
          }
          return None;
        }
        var row := rows[0];
        assert HasHandle(handle)(row) && row in db.groups.Values;
        assert row.id in db.groups && db.groups[row.id] == row;
        CacheSearchGroup(row);
        assert byHandle.GetItem(handle) == Some(Single(row));
      }
      r := ItemOf(byHandle.GetItem(handle));
    }

    /** One pass of the `foreach` of `getGroupsBySiteId`. */
    method CacheSiteRecord(siteId: int, records: seq<Group>, i: int, ghost cached: seq<(int, Group)>,
                           ghost items0: map<int, Slot<Group>>)
      requires 0 <= i < |records| && records[i].siteId == siteId
      requires Valid()
      requires bySite.items - {siteId} == items0 - {siteId}
      requires Collected(bySite.GetItems(siteId).entries, cached, records, i, GroupId)
      modifies allGroups, byId, byHandle, bySite
      ensures Valid()
      ensures bySite.finalized == old(bySite.finalized)
      ensures bySite.items - {siteId} == items0 - {siteId}
      ensures Collected(bySite.GetItems(siteId).entries, cached, records, i + 1, GroupId)
    {
      ghost var before := bySite.GetItems(siteId).entries;
      assert DistinctKeys(before);
      CacheSearchGroup(records[i]);
      assert bySite.GetItems(siteId).entries == Put(before, records[i].id, records[i]);
      CollectStep(before, cached, records, i, GroupId);
    }

    /**
     * `getGroupsBySiteId`: nothing for site 0; otherwise the site's cached
     * set, completed from the table and finalized and sorted the first
     * time it is asked for.
     */
    method GetGroupsBySiteId(siteId: int) returns (r: seq<(int, Group)>)
      requires Valid() && db.Valid()
      modifies allGroups, byId, byHandle, bySite
      ensures Valid()
      ensures siteId == 0 ==> r == [] && unchanged(allGroups, byId, byHandle, bySite)
      ensures siteId != 0 && old(bySite.IsFinalized(siteId)) ==>
        r == old(bySite.GetItems(siteId)).entries && unchanged(allGroups, byId, byHandle, bySite)
      ensures siteId != 0 ==>
        && bySite.IsFinalized(siteId)
        && r == bySite.GetItems(siteId).entries
        && FiledSet(r, siteId, GroupId, GroupSite)
      ensures siteId != 0 && !old(bySite.IsFinalized(siteId)) ==>
        && SortedBy(r, SortOrderOf)
        && (forall id :: id in db.groups && db.groups[id].siteId == siteId ==> HasKey(r, id))
        && (forall e :: e in r ==> e in old(bySite.GetItems(siteId)).entries || (e.0 in db.groups && db.groups[e.0] == e.1))
        && bySite.items - {siteId} == old(bySite.items) - {siteId}
    {
      if siteId == 0 {
        return [];
      }
      if !bySite.IsFinalized(siteId) {
        var cached := bySite.GetItems(siteId).entries;
        var groupIds := ModelIds(cached, GroupId);
        var records := Select(db.groups, IdsBelow(db.groups, db.nextGroupId),
                              Missing(InSite(siteId), groupIds, GroupId));
        ghost var items0 := bySite.items;
        var i := 0;
        CollectedInit(cached, records, GroupId);
        while i < |records|
          invariant 0 <= i <= |records|
          invariant Valid()
          invariant bySite.finalized == old(bySite.finalized)
          invariant bySite.items - {siteId} == items0 - {siteId}
          invariant Collected(bySite.GetItems(siteId).entries, cached, records, i, GroupId)
        {
          CacheSiteRecord(siteId, records, i, cached, items0);
          i := i + 1;
        }
        ghost var filled := bySite.GetItems(siteId).entries;
        bySite.Finalize(siteId);
        SortSiteSearchGroups(siteId);
        r := bySite.GetItems(siteId).entries;
        assert multiset(r) == multiset(filled) by {
          if siteId !in bySite.items {
            assert r == [] && filled == [];
          }
        }
        FillComplete(db.groups, db.nextGroupId, GroupId, InSite(siteId), cached, records, filled, r);
        return;
      }
      r := bySite.GetItems(siteId).entries;
    }

    /**
     * One pass of the `foreach` of `getAllGroups`: cache the group, then
     * finalize and sort its site's set if that set is not finalized yet.
     */
    method FetchRecord(records: seq<Group>, i: int, ghost cached: seq<(int, Group)>, ghost sites0: seq<int>)
      requires 0 <= i < |records|
      requires Valid()
      requires Collected(allGroups.GetItems(DefaultKey).entries, cached, records, i, GroupId)
      requires forall k :: 0 <= k < i ==> bySite.IsFinalized(records[k].siteId)
      requires forall s :: s in sites0 ==> bySite.IsFinalized(s)
      modifies allGroups, byId, byHandle, bySite
      ensures Valid()
      ensures allGroups.finalized == old(allGroups.finalized)
      ensures Collected(allGroups.GetItems(DefaultKey).entries, cached, records, i + 1, GroupId)
      ensures forall k :: 0 <= k < i + 1 ==> bySite.IsFinalized(records[k].siteId)
      ensures forall s :: s in sites0 ==> bySite.IsFinalized(s)
    {
      CacheFetched(records, i, cached);
      ghost var after := allGroups.GetItems(DefaultKey).entries;
      FinalizeSite(records[i].siteId);
      assert allGroups.GetItems(DefaultKey).entries == after;
    }

    /** `_cacheSearchGroup` on a fetched row of the 'all' query. */
    method CacheFetched(records: seq<Group>, i: int, ghost cached: seq<(int, Group)>)
      requires 0 <= i < |records|
      requires Valid()
      requires Collected(allGroups.GetItems(DefaultKey).entries, cached, records, i, GroupId)
      modifies allGroups, byId, byHandle, bySite
      ensures Valid()
      ensures allGroups.finalized == old(allGroups.finalized) && bySite.finalized == old(bySite.finalized)
      ensures Collected(allGroups.GetItems(DefaultKey).entries, cached, records, i + 1, GroupId)
    {
      ghost var before := allGroups.GetItems(DefaultKey).entries;
      CacheSearchGroup(records[i]);
      CollectStep(before, cached, records, i, GroupId);
    }

    /** `if (!isFinalized($model->siteId)) { finalize; _sortSiteSearchGroups }`. */
    method FinalizeSite(siteId: int)
      requires Valid()
      modifies bySite
      ensures Valid()
      ensures bySite.IsFinalized(siteId)
      ensures forall s :: old(bySite.IsFinalized(s)) ==> bySite.IsFinalized(s)
      ensures old(bySite.IsFinalized(siteId)) ==> unchanged(bySite)
      ensures !old(bySite.IsFinalized(siteId)) ==>
        && SortedBy(bySite.GetItems(siteId).entries, SortOrderOf)
        && multiset(bySite.GetItems(siteId).entries) == multiset(old(bySite.GetItems(siteId)).entries)
        && (forall s :: s != siteId ==> bySite.GetItems(s) == old(bySite.GetItems(s)))
    {
      if !bySite.IsFinalized(siteId) {
        bySite.Finalize(siteId);
        SortSiteSearchGroups(siteId);
      }
    }

    /**
     * `getAllGroups`: the 'all' set, completed from the table and
     * finalized and sorted by id the first time it is asked for; each site
     * met among the fetched rows whose set is not finalized yet gets its
     * set finalized and sorted at that moment.
     */
    method GetAllGroups() returns (r: seq<(int, Group)>)
      requires Valid() && db.Valid()
      modifies allGroups, byId, byHandle, bySite
      ensures Valid()
      ensures allGroups.IsFinalized(DefaultKey) && r == allGroups.GetItems(DefaultKey).entries
      ensures KeyedById(r, GroupId)
      ensures old(allGroups.IsFinalized(DefaultKey)) ==>
        r == old(allGroups.GetItems(DefaultKey)).entries && unchanged(allGroups, byId, byHandle, bySite)
      ensures !old(allGroups.IsFinalized(DefaultKey)) ==>
        && SortedBy(r, IdOrder)
        && (forall id :: id in db.groups ==> HasKey(r, id))
        && (forall e :: e in r ==> e in old(allGroups.GetItems(DefaultKey)).entries || (e.0 in db.groups && db.groups[e.0] == e.1))
        && (forall id :: id in db.groups && !HasKey(old(allGroups.GetItems(DefaultKey)).entries, id) ==>
              bySite.IsFinalized(db.groups[id].siteId))
        && (forall s :: old(bySite.IsFinalized(s)) ==> bySite.IsFinalized(s))
    {
      if !allGroups.IsFinalized(DefaultKey) {
        var cached := allGroups.GetItems(DefaultKey).entries;
        var groupIds := ModelIds(cached, GroupId);
        var records := Select(db.groups, IdsBelow(db.groups, db.nextGroupId),
                              Missing(AnyGroup(), groupIds, GroupId));
        ghost var sites0 := bySite.finalized;
        var i := 0;
        CollectedInit(cached, records, GroupId);
        while i < |records|
          invariant 0 <= i <= |records|
          invariant Valid()
          invariant allGroups.finalized == old(allGroups.finalized)
          invariant Collected(allGroups.GetItems(DefaultKey).entries, cached, records, i, GroupId)
          invariant forall k :: 0 <= k < i ==> bySite.IsFinalized(records[k].siteId)
          invariant forall s :: s in sites0 ==> bySite.IsFinalized(s)
        {
          FetchRecord(records, i, cached, sites0);
          i := i + 1;
        }
        ghost var filled := allGroups.GetItems(DefaultKey).entries;
        allGroups.Finalize(DefaultKey);
        SortAllSearchGroups();
        r := allGroups.GetItems(DefaultKey).entries;
        assert multiset(r) == multiset(filled) by {
          if DefaultKey !in allGroups.items {
            assert r == [] && filled == [];
          }
        }
        FillComplete(db.groups, db.nextGroupId, GroupId, AnyGroup(), cached, records, filled, r);
        FetchedRows(db.groups, db.nextGroupId, GroupId, AnyGroup(), cached, records);
        forall id | id in db.groups && !HasKey(cached, id) ensures bySite.IsFinalized(db.groups[id].siteId) {
          assert AnyGroup()(db.groups[id]);
          var k :| 0 <= k < |records| && records[k] == db.groups[id];
        }
        return;
      }
      r := allGroups.GetItems(DefaultKey).entries;
    }

    /**
     * `deleteGroup`: delete the row (its elements and filters cascade) and
     * evict the group from every cache. The parameter is declared
     * `SearchGroup`, not `?SearchGroup`, so the method's own `null` check
     * is never reached: PHP rejects a `null` argument before the body runs.
     */
    method DeleteGroup(group: Group) returns (r: bool)
      requires Valid() && db.Valid()
      modifies db, allGroups, byId, byHandle, bySite
      ensures Valid() && db.Valid()
      ensures r
      ensures db.groups == old(db.groups) - {group.id}
      ensures db.elements == map e | e in old(db.elements) && old(db.elements)[e].groupId != group.id :: old(db.elements)[e]
      ensures db.filters == map f | f in old(db.filters) && old(db.filters)[f].groupId != group.id :: old(db.filters)[f]
      ensures byId.GetItem(group.id) == None && !byId.IsFinalized(group.id)
      ensures byHandle.GetItem(group.handle) == None && !byHandle.IsFinalized(group.handle)
      ensures !HasKey(EntriesAt(allGroups.items, DefaultKey), group.id)
      ensures !HasKey(EntriesAt(bySite.items, group.siteId), group.id)
      ensures forall k :: k != group.id ==>
        Lookup(EntriesAt(allGroups.items, DefaultKey), k) == Lookup(EntriesAt(old(allGroups.items), DefaultKey), k)
      ensures forall k :: k != group.id ==>
        Lookup(EntriesAt(bySite.items, group.siteId), k) == Lookup(EntriesAt(old(bySite.items), group.siteId), k)
    {
      db.DeleteGroup(group.id);
      EvictSingles(group);
      EvictFromSets(group);
      r := true;
    }

    /** `clearItem` of the group's id and of its handle. */
    method EvictSingles(group: Group)
      requires Valid()
      modifies byId, byHandle
      ensures Valid()
      ensures byId.items == old(byId.items) - {group.id} && !byId.IsFinalized(group.id)
      ensures byHandle.items == old(byHandle.items) - {group.handle} && !byHandle.IsFinalized(group.handle)
    {
      byId.ClearItem(group.id);
      byHandle.ClearItem(group.handle);
    }

    /** `removeItem` of the group from the 'all' set and from its site's set. */
    method EvictFromSets(group: Group)
      requires Valid()
      modifies allGroups, bySite
      ensures Valid()
      ensures allGroups.finalized == old(allGroups.finalized) && bySite.finalized == old(bySite.finalized)
      ensures EntriesAt(allGroups.items, DefaultKey) == Remove(EntriesAt(old(allGroups.items), DefaultKey), group.id)
      ensures EntriesAt(bySite.items, group.siteId) == Remove(EntriesAt(old(bySite.items), group.siteId), group.id)
      ensures forall s :: s != group.siteId ==> EntriesAt(bySite.items, s) == EntriesAt(old(bySite.items), s)
    {
      RemoveFromAll(group.id);
      RemoveFromSite(group.id, group.siteId);
    }

    /** `removeItem($id)` on the 'all' set. */
    method RemoveFromAll(id: int)
      requires Valid()
      modifies allGroups
      ensures Valid()
      ensures allGroups.finalized == old(allGroups.finalized)
      ensures EntriesAt(allGroups.items, DefaultKey) == Remove(EntriesAt(old(allGroups.items), DefaultKey), id)
    {
      ghost var all0 := allGroups.items;
      allGroups.RemoveItem(id, DefaultKey);
      if DefaultKey in all0 {
        ReplaceKeepsFiledSets(all0, DefaultKey, allGroups.items[DefaultKey].entries, GroupId, AllKey);
        assert allGroups.items == all0[DefaultKey := allGroups.items[DefaultKey]];
      }
    }

    /** `removeItem($id, $siteId)` on the site sets. */
    method RemoveFromSite(id: int, siteId: int)
      requires Valid()
      modifies bySite
      ensures Valid()
      ensures bySite.finalized == old(bySite.finalized)
      ensures EntriesAt(bySite.items, siteId) == Remove(EntriesAt(old(bySite.items), siteId), id)
      ensures forall s :: s != siteId ==> EntriesAt(bySite.items, s) == EntriesAt(old(bySite.items), s)
    {
      ghost var sites0 := bySite.items;
      bySite.RemoveItem(id, siteId);
      if siteId in sites0 {
        ReplaceKeepsFiledSets(sites0, siteId, bySite.items[siteId].entries, GroupId, GroupSite);
        assert bySite.items == sites0[siteId := bySite.items[siteId]];
      }
    }

    /**
     * `deleteGroupById` as written: an id with no group hands `null` to
     * `deleteGroup`, whose parameter type rejects it with a `TypeError`.
     */
    method DeleteGroupByIdAsWritten(groupId: int) returns (r: Outcome<bool, ServiceError>)
      requires Valid() && db.Valid()
      modifies db, allGroups, byId, byHandle, bySite
      ensures Valid() && db.Valid()
      ensures !old(byId.IsFinalized(groupId)) && groupId !in old(db.groups) ==> r == Thrown(NullGroupArgument)
      ensures r == Done(true) ==> db.groups == old(db.groups) - {groupId}
      ensures r == Done(true) || r == Thrown(NullGroupArgument)
    {
      var group := GetGroupById(groupId);
      if group.None? {
        return Thrown(NullGroupArgument);
      }
      var deleted := DeleteGroup(group.value);
      r := Done(deleted);
    }

    /**
     * `deleteGroupById` as its documentation says: false when there is no
     * such group, otherwise the group is deleted and evicted.
     */
    method DeleteGroupById(groupId: int) returns (r: bool)
      requires Valid() && db.Valid()
      modifies db, allGroups, byId, byHandle, bySite
      ensures Valid() && db.Valid()
      ensures !old(byId.IsFinalized(groupId)) ==> (r <==> groupId in old(db.groups))
      ensures old(byId.IsFinalized(groupId)) ==> (r <==> ItemOf(old(byId.GetItem(groupId))).Some?)
      ensures !r ==> db.Snapshot() == old(db.Snapshot())
      ensures r ==> (&& db.groups == old(db.groups) - {groupId}
                     && byId.GetItem(groupId) == None && !byId.IsFinalized(groupId)
                     && !HasKey(EntriesAt(allGroups.items, DefaultKey), groupId))
    {
      var group := GetGroupById(groupId);
      if group.None? {
        return false;
      }
      r := DeleteGroup(group.value);
    }

    /**
     * `reorderGroups`: give `ids[k]` the sort order k + 1 inside one
     * transaction, then re-sort every finalized site set. An id with no row
     * makes `one()` return `null`, and the property write on it raises: the
     * transaction is rolled back and the caches are left alone.
     */
    method ReorderGroups(ids: seq<int>) returns (r: Outcome<bool, ServiceError>)
      requires Valid() && db.Valid()
      modifies db, bySite
      ensures Valid() && db.Valid()
      ensures db.elements == old(db.elements) && db.filters == old(db.filters)
      ensures r == Done(true) <==> forall j :: 0 <= j < |ids| ==> ids[j] in old(db.groups)
      ensures r == Done(true) ==>
        && SortOrdersWritten(db.groups, old(db.groups), ids, |ids|)
        && bySite.finalized == old(bySite.finalized)
        && (forall s :: bySite.IsFinalized(s) ==> SortedBy(bySite.GetItems(s).entries, SortOrderOf))
        && (forall s :: multiset(EntriesAt(bySite.items, s)) == multiset(EntriesAt(old(bySite.items), s)))
      ensures r != Done(true) ==>
        && db.Snapshot() == old(db.Snapshot()) && unchanged(bySite)
        && (exists k :: && 0 <= k < |ids| && ids[k] !in old(db.groups) && r == Thrown(NullRecord(ids[k]))
                        && (forall j :: 0 <= j < k ==> ids[j] in old(db.groups)))
    {
      var snapshot := db.Snapshot();
      var missing := WriteSortOrders(ids);
      if missing.Some? {
        db.Rollback(snapshot);
        return Thrown(NullRecord(ids[missing.value]));
      }
      ResortSites();
      r := Done(true);
    }

    /**
     * The loop of `reorderGroups` inside the transaction: write sort order
     * k + 1 to the row of `ids[k]`, stopping at the first id with no row,
     * whose position it returns.
     */
    method WriteSortOrders(ids: seq<int>) returns (missing: Option<int>)
      requires db.Valid()
      modifies db`groups, db`nextGroupId
      ensures db.Valid() && db.nextGroupId == old(db.nextGroupId)
      ensures missing.None? ==> forall j :: 0 <= j < |ids| ==> ids[j] in old(db.groups)
      ensures missing.None? ==> SortOrdersWritten(db.groups, old(db.groups), ids, |ids|)
      ensures missing.Some? ==>
        && 0 <= missing.value < |ids| && ids[missing.value] !in old(db.groups)
        && (forall j :: 0 <= j < missing.value ==> ids[j] in old(db.groups))
    {
      var i := 0;
      ghost var before := db.groups;
      SortOrdersInit(before, ids);
      missing := None;
      while i < |ids| && missing.None?
        invariant 0 <= i <= |ids|
        invariant db.Valid() && db.nextGroupId == old(db.nextGroupId)
        invariant SortOrdersWritten(db.groups, before, ids, i)
        invariant forall j :: 0 <= j < i ==> ids[j] in before
        invariant missing.Some? ==> missing.value == i < |ids| && ids[i] !in before
        decreases |ids| - i, if missing.None? then 1 else 0
      {
        if ids[i] !in db.groups {
          assert db.groups.Keys == before.Keys;
          missing := Some(i);
        } else {
          WriteSortOrder(ids, i, before);
          i := i + 1;
        }
      }
    }

    /** One iteration of `WriteSortOrders`: `$record->sortOrder = $sortOrder; $record->save()`. */
    method WriteSortOrder(ids: seq<int>, i: int, ghost before: map<int, Group>)
      requires db.Valid() && 0 <= i < |ids| && ids[i] in db.groups
      requires SortOrdersWritten(db.groups, before, ids, i)
      requires forall j :: 0 <= j < i ==> ids[j] in before
      modifies db`groups, db`nextGroupId
      ensures db.Valid() && db.nextGroupId == old(db.nextGroupId)
      ensures SortOrdersWritten(db.groups, before, ids, i + 1)
      ensures forall j :: 0 <= j < i + 1 ==> ids[j] in before
    {
      var id := ids[i];
      SortOrdersStep(db.groups, before, ids, i);
      var saved := db.SaveGroup(db.groups[id].(sortOrder := i + 1));
    }

    /** `foreach ($this->_siteSearchGroups->getKeys() as $key) _sortSiteSearchGroups($key)`. */
    method ResortSites()
      requires Valid()
      modifies bySite
      ensures Valid()
      ensures bySite.finalized == old(bySite.finalized)
      ensures forall s :: bySite.IsFinalized(s) ==> SortedBy(bySite.GetItems(s).entries, SortOrderOf)
      ensures forall s :: multiset(EntriesAt(bySite.items, s)) == multiset(EntriesAt(old(bySite.items), s))
    {
      var keys := bySite.GetKeys();
      ghost var items0 := bySite.items;
      var i := 0;
      while i < |keys|
        invariant 0 <= i <= |keys|
        invariant Valid()
        invariant bySite.finalized == keys
        invariant forall s :: s in keys[..i] ==> SortedBy(EntriesAt(bySite.items, s), SortOrderOf)
        invariant forall s :: multiset(EntriesAt(bySite.items, s)) == multiset(EntriesAt(items0, s))
      {
        ResortSite(keys, i, items0);
        i := i + 1;
      }
      assert keys[..|keys|] == keys;
    }

    /** One iteration of `ResortSites`: sort the `i`th finalized site set. */
    method ResortSite(keys: seq<int>, i: int, ghost items0: map<int, Slot<Group>>)
      requires Valid() && bySite.finalized == keys && 0 <= i < |keys|
      requires forall s :: s in keys[..i] ==> SortedBy(EntriesAt(bySite.items, s), SortOrderOf)
      requires forall s :: multiset(EntriesAt(bySite.items, s)) == multiset(EntriesAt(items0, s))
      modifies bySite
      ensures Valid() && bySite.finalized == keys
      ensures forall s :: s in keys[..i + 1] ==> SortedBy(EntriesAt(bySite.items, s), SortOrderOf)
      ensures forall s :: multiset(EntriesAt(bySite.items, s)) == multiset(EntriesAt(items0, s))
    {
      var key := keys[i];
      SortSiteSearchGroups(key);
      assert keys[..i + 1] == keys[..i] + [key];
    }

    /**
     * The element half of `saveGroup`'s transaction: delete the group's
     * element rows, then save each element of `list` into the group with
     * sort order 1, 2, ... in list order, stopping at the first save that
     * does not return true. `valid` is the outcome of each element's
     * `validate()`.
     */
    method ResaveElements(groupId: int, list: seq<Element>, service: Elements.SearchGroupElements, valid: Element -> bool)
      returns (r: Outcome<bool, ServiceError>, ghost ids: seq<int>, ghost at: int)
      requires db.Valid() && service.Valid() && service.db == db
      modifies db, service.groupElements
      ensures db.Valid() && service.Valid()
      ensures db.groups == old(db.groups) && db.filters == old(db.filters)
      ensures db.nextGroupId == old(db.nextGroupId) && db.nextFilterId == old(db.nextFilterId)
      ensures old(db.nextElementId) <= db.nextElementId
      ensures r == Done(true) ==>
        && |ids| == |list|
        && Resaved(db.elements, old(db.elements), Elements.ElementGroup, groupId, ids, ResavedElements(list, groupId, ids))
        && (forall k :: 0 <= k < |list| ==> valid(list[k].(groupId := groupId, sortOrder := k + 1)))
      ensures r == Done(true) ==>
        forall k :: 0 <= k < |list| && list[k].id in old(db.elements) ==> old(db.elements)[list[k].id].groupId != groupId
      ensures r != Done(true) ==> 0 <= at < |list|
      ensures r == Done(false) ==> !valid(list[at].(groupId := groupId, sortOrder := at + 1))
      ensures r.Thrown? ==> r.error == SearchGroupElementNotFound(list[at].id)
    {
      db.DeleteElementsOfGroup(groupId);
      ghost var deleted := old(db.elements);
      ResavedInit(db.elements, deleted, Elements.ElementGroup, groupId);
      ids := [];
      var i := 0;
      while i < |list|
        invariant 0 <= i <= |list| && |ids| == i
        invariant db.Valid() && service.Valid()
        invariant db.groups == old(db.groups) && db.filters == old(db.filters)
        invariant db.nextGroupId == old(db.nextGroupId) && db.nextFilterId == old(db.nextFilterId)
        invariant old(db.nextElementId) <= db.nextElementId
        invariant Resaved(db.elements, deleted, Elements.ElementGroup, groupId, ids, ResavedElements(list[..i], groupId, ids))
        invariant forall k :: 0 <= k < i ==> valid(list[k].(groupId := groupId, sortOrder := k + 1))
        invariant forall k :: 0 <= k < i && list[k].id in deleted ==> deleted[list[k].id].groupId != groupId
      {
        var res, id := ResaveElement(groupId, list, i, ids, deleted, old(db.nextElementId), service, valid);
        if res != Done(true) {
          return res, ids, i;
        }
        ids := ids + [id];
        i := i + 1;
      }
      assert list[..i] == list;
      r, at := Done(true), 0;
    }
    /** The filter half of `saveGroup`'s transaction, the same as `ResaveFilters`. */
    method ResaveFilters(groupId: int, list: seq<Filter>, service: Filters.SearchGroupFilters, valid: Filter -> bool)
      returns (r: Outcome<bool, ServiceError>, ghost ids: seq<int>, ghost at: int)
      requires db.Valid() && service.Valid() && service.db == db
      modifies db, service.filters, service.groupFilters
      ensures db.Valid() && service.Valid()
      ensures db.groups == old(db.groups) && db.elements == old(db.elements)
      ensures db.nextGroupId == old(db.nextGroupId) && db.nextElementId == old(db.nextElementId)
      ensures old(db.nextFilterId) <= db.nextFilterId
      ensures r == Done(true) ==>
        && |ids| == |list|
        && Resaved(db.filters, old(db.filters), Filters.FilterGroup, groupId, ids, ResavedFilters(list, groupId, ids))
        && (forall k :: 0 <= k < |list| ==> valid(list[k].(groupId := groupId, sortOrder := k + 1)))
      ensures r == Done(true) ==>
        forall k :: 0 <= k < |list| && list[k].id in old(db.filters) ==> old(db.filters)[list[k].id].groupId != groupId
      ensures r != Done(true) ==> 0 <= at < |list|
      ensures r == Done(false) ==> !valid(list[at].(groupId := groupId, sortOrder := at + 1))
      ensures r.Thrown? ==> r.error == SearchGroupFilterNotFound(list[at].id)
    {
      db.DeleteFiltersOfGroup(groupId);
      ghost var deleted := old(db.filters);
      ResavedInit(db.filters, deleted, Filters.FilterGroup, groupId);
      ids := [];
      var i := 0;
      while i < |list|
        invariant 0 <= i <= |list| && |ids| == i
        invariant db.Valid() && service.Valid()
        invariant db.groups == old(db.groups) && db.elements == old(db.elements)
        invariant db.nextGroupId == old(db.nextGroupId) && db.nextElementId == old(db.nextElementId)
        invariant old(db.nextFilterId) <= db.nextFilterId
        invariant Resaved(db.filters, deleted, Filters.FilterGroup, groupId, ids, ResavedFilters(list[..i], groupId, ids))
        invariant forall k :: 0 <= k < i ==> valid(list[k].(groupId := groupId, sortOrder := k + 1))
        invariant forall k :: 0 <= k < i && list[k].id in deleted ==> deleted[list[k].id].groupId != groupId
      {
        var res, id := ResaveFilter(groupId, list, i, ids, deleted, old(db.nextFilterId), service, valid);
        if res != Done(true) {
          return res, ids, i;
        }
        ids := ids + [id];
        i := i + 1;
      }
      assert list[..i] == list;
      r, at := Done(true), 0;
    }


    /** Lines 232-240 of `saveGroup`: drop the cache entries the update makes stale. */
    method EvictStale(stored: Group, model: Group)
      requires Valid() && model.id != 0
      modifies byHandle, bySite
      ensures Valid()
      ensures bySite.finalized == old(bySite.finalized)
      ensures stored.siteId == model.siteId ==> bySite.items == old(bySite.items)
      ensures stored.siteId != model.siteId ==>
        && EntriesAt(bySite.items, stored.siteId) == Remove(EntriesAt(old(bySite.items), stored.siteId), model.id)
        && (forall s :: s != stored.siteId ==> EntriesAt(bySite.items, s) == EntriesAt(old(bySite.items), s))
      ensures EvictsHandle(stored, model) ==>
        byHandle.items == old(byHandle.items) - {stored.handle} && !byHandle.IsFinalized(stored.handle)
      ensures !EvictsHandle(stored, model) ==> unchanged(byHandle)
    {
      if stored.siteId != model.siteId {
        RemoveFromSite(model.id, stored.siteId);
      }
      if EvictsHandle(stored, model) {
        byHandle.ClearItem(stored.handle);
      }
    }

    /**
     * Lines 243-257 of `saveGroup`: an unset sort order becomes 999 on the
     * model itself, the row is written (inserted when the model has no id),
     * and a new model takes the row's id.
     */
    method PersistGroup(model: Models.SearchGroupModel)
      requires db.Valid()
      requires model.group.id == 0 || model.group.id in db.groups
      modifies model`group, db`groups, db`nextGroupId
      ensures db.Valid()
      ensures model.group == old(model.group).(
        id := model.group.id,
        sortOrder := if old(model.group.sortOrder) == 0 then UnsetSortOrder else old(model.group.sortOrder))
      ensures old(model.group.id) != 0 ==> model.group.id == old(model.group.id) && db.nextGroupId == old(db.nextGroupId)
      ensures old(model.group.id) == 0 ==>
        model.group.id == old(db.nextGroupId) && db.nextGroupId == model.group.id + 1 && model.group.id !in old(db.groups)
      ensures db.groups == old(db.groups)[model.group.id := model.group]
    {
      var g := model.group;
      if g.sortOrder == 0 {
        g := g.(sortOrder := UnsetSortOrder);
      }
      model.group := g;
      var id := db.SaveGroup(g);
      model.group := g.(id := id);
    }

    /**
     * Lines 258-263 of `saveGroup`: a new group is cached, then its site set
     * and the 'all' set are re-sorted if they are finalized.
     */
    method CacheAndSortGroup(g: Group, isNew: bool)
      requires Valid()
      modifies allGroups, byId, byHandle, bySite
      ensures Valid()
      ensures isNew ==>
        && byId.GetItem(g.id) == Some(Single(g)) && byHandle.GetItem(g.handle) == Some(Single(g))
        && (g.id, g) in EntriesAt(allGroups.items, DefaultKey) && (g.id, g) in EntriesAt(bySite.items, g.siteId)
      ensures !isNew ==> unchanged(byId, byHandle)
      ensures !isNew ==> forall s :: multiset(EntriesAt(bySite.items, s)) == multiset(EntriesAt(old(bySite.items), s))
      ensures !isNew ==> multiset(EntriesAt(allGroups.items, DefaultKey)) == multiset(EntriesAt(old(allGroups.items), DefaultKey))
      ensures bySite.IsFinalized(g.siteId) ==> SortedBy(EntriesAt(bySite.items, g.siteId), SortOrderOf)
      ensures allGroups.IsFinalized(DefaultKey) ==> SortedBy(EntriesAt(allGroups.items, DefaultKey), IdOrder)
      ensures isNew ==> byId.items == old(byId.items)[g.id := Single(g)] && byHandle.items == old(byHandle.items)[g.handle := Single(g)]
      ensures SavedSets(old(bySite.items), bySite.items, g.id, g, isNew, g.siteId, g.siteId)
      ensures SavedSets(old(allGroups.items), allGroups.items, g.id, g, isNew, DefaultKey, DefaultKey)
    {
      if isNew {
        CacheAndSortNew(g);
      } else {
        ResortGroupSets(g);
      }
    }

    /** `saveGroup` for a new group: cache it, then re-sort its site set and the 'all' set. */
    method CacheAndSortNew(g: Group)
      requires Valid()
      modifies allGroups, byId, byHandle, bySite
      ensures Valid()
      ensures byId.items == old(byId.items)[g.id := Single(g)] && byHandle.items == old(byHandle.items)[g.handle := Single(g)]
      ensures (g.id, g) in EntriesAt(allGroups.items, DefaultKey) && (g.id, g) in EntriesAt(bySite.items, g.siteId)
      ensures bySite.IsFinalized(g.siteId) ==> SortedBy(EntriesAt(bySite.items, g.siteId), SortOrderOf)
      ensures allGroups.IsFinalized(DefaultKey) ==> SortedBy(EntriesAt(allGroups.items, DefaultKey), IdOrder)
      ensures SavedSets(old(bySite.items), bySite.items, g.id, g, true, g.siteId, g.siteId)
      ensures SavedSets(old(allGroups.items), allGroups.items, g.id, g, true, DefaultKey, DefaultKey)
    {
      ghost var site0, all0 := bySite.items, allGroups.items;
      assert EntriesAt(site0, g.siteId) == bySite.GetItems(g.siteId).entries;
      assert EntriesAt(all0, DefaultKey) == allGroups.GetItems(DefaultKey).entries;
      assert DistinctKeys(EntriesAt(site0, g.siteId)) && DistinctKeys(EntriesAt(all0, DefaultKey));
      CacheSearchGroup(g);
      SortNewSiteSet(g, site0);
      SortNewAllSet(g, all0);
    }

    /** The re-sort of the site set a new group just went into. */
    method SortNewSiteSet(g: Group, ghost site0: map<int, Slot<Group>>)
      requires Valid()
      requires DistinctKeys(EntriesAt(site0, g.siteId))
      requires bySite.items == site0[g.siteId := Set(Put(EntriesAt(site0, g.siteId), g.id, g))]
      modifies bySite
      ensures Valid()
      ensures (g.id, g) in EntriesAt(bySite.items, g.siteId)
      ensures bySite.IsFinalized(g.siteId) ==> SortedBy(EntriesAt(bySite.items, g.siteId), SortOrderOf)
      ensures SavedSets(site0, bySite.items, g.id, g, true, g.siteId, g.siteId)
    {
      ghost var site1 := bySite.items;
      UpdatedEntries(site0, g.siteId, Put(EntriesAt(site0, g.siteId), g.id, g));
      ghost var site := EntriesAt(site1, g.siteId);
      assert Lookup(site, g.id) == Some(g);
      assert (g.id, g) in site;
      SortSiteSearchGroups(g.siteId);
      assert (g.id, g) in multiset(site);
      SavedInPlace(site0, site1, bySite.items, g.id, g, true, g.siteId);
    }

    /** The re-sort of the 'all' set after a new group went into it. */
    method SortNewAllSet(g: Group, ghost all0: map<int, Slot<Group>>)
      requires Valid()
      requires DistinctKeys(EntriesAt(all0, DefaultKey))
      requires allGroups.items == all0[DefaultKey := Set(Put(EntriesAt(all0, DefaultKey), g.id, g))]
      modifies allGroups
      ensures Valid()
      ensures (g.id, g) in EntriesAt(allGroups.items, DefaultKey)
      ensures allGroups.IsFinalized(DefaultKey) ==> SortedBy(EntriesAt(allGroups.items, DefaultKey), IdOrder)
      ensures SavedSets(all0, allGroups.items, g.id, g, true, DefaultKey, DefaultKey)
    {
      ghost var all1 := allGroups.items;
      UpdatedEntries(all0, DefaultKey, Put(EntriesAt(all0, DefaultKey), g.id, g));
      ghost var all := EntriesAt(all1, DefaultKey);
      assert Lookup(all, g.id) == Some(g);
      assert (g.id, g) in all;
      SortAllSearchGroups();
      assert (g.id, g) in multiset(all);
      SavedInPlace(all0, all1, allGroups.items, g.id, g, true, DefaultKey);
    }

    /** `saveGroup` for a stored group: only the re-sort of its site set and the 'all' set. */
    method ResortGroupSets(g: Group)
      requires Valid()
      modifies allGroups, bySite
      ensures Valid()
      ensures forall s :: multiset(EntriesAt(bySite.items, s)) == multiset(EntriesAt(old(bySite.items), s))
      ensures multiset(EntriesAt(allGroups.items, DefaultKey)) == multiset(EntriesAt(old(allGroups.items), DefaultKey))
      ensures bySite.IsFinalized(g.siteId) ==> SortedBy(EntriesAt(bySite.items, g.siteId), SortOrderOf)
      ensures allGroups.IsFinalized(DefaultKey) ==> SortedBy(EntriesAt(allGroups.items, DefaultKey), IdOrder)
      ensures SavedSets(old(bySite.items), bySite.items, g.id, g, false, g.siteId, g.siteId)
      ensures SavedSets(old(allGroups.items), allGroups.items, g.id, g, false, DefaultKey, DefaultKey)
    {
      ghost var site0, all0 := bySite.items, allGroups.items;
      SortGroupSets(g.siteId);
      SavedInPlace(site0, site0, bySite.items, g.id, g, false, g.siteId);
      SavedInPlace(all0, all0, allGroups.items, g.id, g, false, DefaultKey);
    }

    /** Lines 259-262 of `saveGroup`: re-sort the group's site set and the 'all' set. */
    method SortGroupSets(siteId: int)
      requires Valid()
      modifies allGroups, bySite
      ensures Valid()
      ensures bySite.finalized == old(bySite.finalized) && allGroups.finalized == old(allGroups.finalized)
      ensures bySite.items.Keys == old(bySite.items).Keys && bySite.items - {siteId} == old(bySite.items) - {siteId}
      ensures allGroups.items.Keys == old(allGroups.items).Keys
      ensures allGroups.items - {DefaultKey} == old(allGroups.items) - {DefaultKey}
      ensures multiset(EntriesAt(bySite.items, siteId)) == multiset(EntriesAt(old(bySite.items), siteId))
      ensures multiset(EntriesAt(allGroups.items, DefaultKey)) == multiset(EntriesAt(old(allGroups.items), DefaultKey))
      ensures bySite.IsFinalized(siteId) ==> SortedBy(EntriesAt(bySite.items, siteId), SortOrderOf)
      ensures allGroups.IsFinalized(DefaultKey) ==> SortedBy(EntriesAt(allGroups.items, DefaultKey), IdOrder)
    {
      SortSiteSearchGroups(siteId);
      SortAllSearchGroups();
      assert EntriesAt(allGroups.items, DefaultKey) == allGroups.GetItems(DefaultKey).entries;
    }

    /**
     * `saveGroup`. `passesValidation` is the outcome of the model's
     * `validate()`, `validElement` and `validFilter` those of each
     * element's and filter's. An id with no row throws before anything
     * changes. Otherwise the stale cache entries are dropped, the row is
     * written and cached, and the group's elements and filters are deleted
     * and saved again, numbered from 1 in list order; a failed save rolls
     * the tables back to the state before the row was written. The caches
     * and the model are not rolled back.
     */
    method SaveGroup(model: Models.SearchGroupModel, passesValidation: bool,
                     elementService: Elements.SearchGroupElements, filterService: Filters.SearchGroupFilters,
                     validElement: Element -> bool, validFilter: Filter -> bool)
      returns (r: Outcome<bool, ServiceError>, elements: seq<Element>, ghost elementIds: seq<int>,
               filters: seq<Filter>, ghost filterIds: seq<int>)
      requires Valid() && db.Valid() && elementService.Valid() && filterService.Valid()
      requires elementService.db == db && filterService.db == db
      modifies model`group, db, allGroups, byId, byHandle, bySite
      modifies elementService.groupElements, filterService.filters, filterService.groupFilters
      ensures Valid() && db.Valid() && elementService.Valid() && filterService.Valid()
      ensures !passesValidation ==> r == Done(false) && unchanged(model, db, allGroups, byId, byHandle, bySite)
      ensures passesValidation && old(model.group.id) != 0 && old(model.group.id) !in old(db.groups) ==>
        && r == Thrown(SearchGroupNotFound(old(model.group.id)))
        && unchanged(model, db, allGroups, byId, byHandle, bySite)
      ensures passesValidation && (old(model.group.id) == 0 || old(model.group.id) in old(db.groups)) ==>
        && model.group == old(model.group).(
             id := model.group.id,
             sortOrder := if old(model.group.sortOrder) == 0 then UnsetSortOrder else old(model.group.sortOrder))
        && (old(model.group.id) != 0 ==> model.group.id == old(model.group.id))
        && (old(model.group.id) == 0 ==> model.group.id == old(db.nextGroupId) && model.group.id !in old(db.groups))
        && SavedInCaches(old(allGroups.items), old(byId.items), old(byHandle.items), old(bySite.items),
                         model.group, if old(model.group.id) != 0 then Some(old(db.groups)[old(model.group.id)]) else None)
      ensures r == Done(true) ==>
        && db.groups == old(db.groups)[model.group.id := model.group]
        && |elementIds| == |elements| && |filterIds| == |filters|
        && Rewritten(db.elements, Elements.ElementGroup, model.group.id, elementIds,
                     ResavedElements(elements, model.group.id, elementIds))
        && Rewritten(db.filters, Filters.FilterGroup, model.group.id, filterIds,
                     ResavedFilters(filters, model.group.id, filterIds))
        && (model.elementsOverride.Some? ==> elements == model.elementsOverride.value)
        && (model.filtersOverride.Some? ==> filters == model.filtersOverride.value)
      ensures passesValidation && r != Done(true) ==> db.Snapshot() == old(db.Snapshot())
      ensures r == Done(false) ==>
        !passesValidation
        || SomeElementInvalid(elements, model.group.id, validElement)
        || SomeFilterInvalid(filters, model.group.id, validFilter)
    {
      elements, elementIds, filters, filterIds := [], [], [], [];
      if !passesValidation {
        return Done(false), elements, elementIds, filters, filterIds;
      }
      var id := model.group.id;
      if id != 0 && id !in db.groups {
        return Thrown(SearchGroupNotFound(id)), elements, elementIds, filters, filterIds;
      }
      r, elements, elementIds, filters, filterIds :=
        SaveValidGroup(model, elementService, filterService, validElement, validFilter);
    }

    /** `saveGroup` from the transaction on: the model passed validation and its id, if any, has a row. */
    method SaveValidGroup(model: Models.SearchGroupModel,
                          elementService: Elements.SearchGroupElements, filterService: Filters.SearchGroupFilters,
                          validElement: Element -> bool, validFilter: Filter -> bool)
      returns (r: Outcome<bool, ServiceError>, elements: seq<Element>, ghost elementIds: seq<int>,
               filters: seq<Filter>, ghost filterIds: seq<int>)
      requires Valid() && db.Valid() && elementService.Valid() && filterService.Valid()
      requires elementService.db == db && filterService.db == db
      requires model.group.id == 0 || model.group.id in db.groups
      modifies model`group, db, allGroups, byId, byHandle, bySite
      modifies elementService.groupElements, filterService.filters, filterService.groupFilters
      ensures Valid() && db.Valid() && elementService.Valid() && filterService.Valid()
      ensures model.group == old(model.group).(
        id := model.group.id,
        sortOrder := if old(model.group.sortOrder) == 0 then UnsetSortOrder else old(model.group.sortOrder))
      ensures old(model.group.id) != 0 ==> model.group.id == old(model.group.id)
      ensures old(model.group.id) == 0 ==> model.group.id == old(db.nextGroupId) && model.group.id !in old(db.groups)
      ensures SavedInCaches(old(allGroups.items), old(byId.items), old(byHandle.items), old(bySite.items),
                            model.group, if old(model.group.id) != 0 then Some(old(db.groups)[old(model.group.id)]) else None)
      ensures r == Done(true) ==>
        && db.groups == old(db.groups)[model.group.id := model.group]
        && |elementIds| == |elements| && |filterIds| == |filters|
        && Rewritten(db.elements, Elements.ElementGroup, model.group.id, elementIds,
                     ResavedElements(elements, model.group.id, elementIds))
        && Rewritten(db.filters, Filters.FilterGroup, model.group.id, filterIds,
                     ResavedFilters(filters, model.group.id, filterIds))
        && (model.elementsOverride.Some? ==> elements == model.elementsOverride.value)
        && (model.filtersOverride.Some? ==> filters == model.filtersOverride.value)
      ensures r != Done(true) ==> db.Snapshot() == old(db.Snapshot())
      ensures r == Done(false) ==>
        || SomeElementInvalid(elements, model.group.id, validElement)
        || SomeFilterInvalid(filters, model.group.id, validFilter)
    {
      var snapshot := db.Snapshot();
      UpdateGroupRecord(model);
      r, elements, elementIds, filters, filterIds :=
        ResaveOrRollBack(model, snapshot, elementService, filterService, validElement, validFilter);
    }

    /**
     * Lines 232-263 of `saveGroup`: drop the stale cache entries, write the
     * row, cache a new group and re-sort the sets it is in.
     */
    method UpdateGroupRecord(model: Models.SearchGroupModel)
      requires Valid() && db.Valid()
      requires model.group.id == 0 || model.group.id in db.groups
      modifies model`group, db`groups, db`nextGroupId, allGroups, byId, byHandle, bySite
      ensures Valid() && db.Valid()
      ensures old(db.nextGroupId) <= db.nextGroupId
      ensures db.groups == old(db.groups)[model.group.id := model.group]
      ensures model.group == old(model.group).(
        id := model.group.id,
        sortOrder := if old(model.group.sortOrder) == 0 then UnsetSortOrder else old(model.group.sortOrder))
      ensures old(model.group.id) != 0 ==> model.group.id == old(model.group.id)
      ensures old(model.group.id) == 0 ==> model.group.id == old(db.nextGroupId) && model.group.id !in old(db.groups)
      ensures SavedInCaches(old(allGroups.items), old(byId.items), old(byHandle.items), old(bySite.items),
                            model.group, if old(model.group.id) != 0 then Some(old(db.groups)[old(model.group.id)]) else None)
    {
      if model.group.id != 0 {
        RewriteStoredGroup(model);
      } else {
        InsertNewGroup(model);
      }
    }

    /** `saveGroup` lines 232-263 for a group that has a row: evict, write, re-sort. */
    method RewriteStoredGroup(model: Models.SearchGroupModel)
      requires Valid() && db.Valid()
      requires model.group.id in db.groups
      modifies model`group, db`groups, db`nextGroupId, allGroups, byId, byHandle, bySite
      ensures Valid() && db.Valid()
      ensures db.nextGroupId == old(db.nextGroupId)
      ensures db.groups == old(db.groups)[model.group.id := model.group]
      ensures model.group == old(model.group).(
        sortOrder := if old(model.group.sortOrder) == 0 then UnsetSortOrder else old(model.group.sortOrder))
      ensures bySite.IsFinalized(model.group.siteId) ==> SortedBy(EntriesAt(bySite.items, model.group.siteId), SortOrderOf)
      ensures allGroups.IsFinalized(DefaultKey) ==> SortedBy(EntriesAt(allGroups.items, DefaultKey), IdOrder)
      ensures var stored := old(db.groups)[old(model.group.id)];
        && (stored.siteId != model.group.siteId ==> !HasKey(EntriesAt(bySite.items, stored.siteId), model.group.id))
        && (EvictsHandle(stored, old(model.group)) ==>
              stored.handle !in byHandle.items && !byHandle.IsFinalized(stored.handle))
      ensures CachesSaved(old(allGroups.items), allGroups.items, old(byId.items), byId.items,
                          old(byHandle.items), byHandle.items, old(bySite.items), bySite.items,
                          model.group, Some(old(db.groups)[old(model.group.id)]))
    {
      var id := model.group.id;
      var stored := db.groups[id];
      EvictStale(stored, model.group);
      ghost var left := bySite.items;
      ghost var sites := EntriesAt(bySite.items, stored.siteId);
      PersistGroup(model);
      CacheAndSortGroup(model.group, false);
      if stored.siteId != model.group.siteId {
        PermutationKeys(sites, EntriesAt(bySite.items, stored.siteId), id);
      }
      SavedSetsAfterLeaving(old(bySite.items), left, bySite.items, id, model.group, false, stored.siteId, model.group.siteId);
    }

    /** `saveGroup` lines 243-263 for a new group: insert the row, cache it, re-sort. */
    method InsertNewGroup(model: Models.SearchGroupModel)
      requires Valid() && db.Valid()
      requires model.group.id == 0
      modifies model`group, db`groups, db`nextGroupId, allGroups, byId, byHandle, bySite
      ensures Valid() && db.Valid()
      ensures db.groups == old(db.groups)[model.group.id := model.group]
      ensures model.group == old(model.group).(
        id := model.group.id,
        sortOrder := if old(model.group.sortOrder) == 0 then UnsetSortOrder else old(model.group.sortOrder))
      ensures model.group.id == old(db.nextGroupId) && model.group.id !in old(db.groups)
      ensures db.nextGroupId == model.group.id + 1
      ensures byId.GetItem(model.group.id) == Some(Single(model.group))
      ensures byHandle.GetItem(model.group.handle) == Some(Single(model.group))
      ensures (model.group.id, model.group) in EntriesAt(allGroups.items, DefaultKey)
      ensures (model.group.id, model.group) in EntriesAt(bySite.items, model.group.siteId)
      ensures bySite.IsFinalized(model.group.siteId) ==> SortedBy(EntriesAt(bySite.items, model.group.siteId), SortOrderOf)
      ensures allGroups.IsFinalized(DefaultKey) ==> SortedBy(EntriesAt(allGroups.items, DefaultKey), IdOrder)
      ensures CachesSaved(old(allGroups.items), allGroups.items, old(byId.items), byId.items,
                          old(byHandle.items), byHandle.items, old(bySite.items), bySite.items, model.group, None)
    {
      PersistGroup(model);
      CacheAndSortGroup(model.group, true);
    }

    /**
     * The rest of `saveGroup`'s transaction: resave the lists, and on a
     * failed save restore the tables to `snapshot`.
     */
    method ResaveOrRollBack(model: Models.SearchGroupModel, snapshot: Tables,
                            elementService: Elements.SearchGroupElements, filterService: Filters.SearchGroupFilters,
                            validElement: Element -> bool, validFilter: Filter -> bool)
      returns (r: Outcome<bool, ServiceError>, elements: seq<Element>, ghost elementIds: seq<int>,
               filters: seq<Filter>, ghost filterIds: seq<int>)
      requires db.Valid() && elementService.Valid() && filterService.Valid()
      requires elementService.db == db && filterService.db == db
      requires TablesBelow(snapshot, db.nextGroupId, db.nextFilterId, db.nextElementId)
      modifies db, elementService.groupElements, filterService.filters, filterService.groupFilters
      ensures db.Valid() && elementService.Valid() && filterService.Valid()
      ensures unchanged(this, allGroups, byId, byHandle, bySite)
      ensures r == Done(true) ==>
        && db.groups == old(db.groups)
        && |elementIds| == |elements| && |filterIds| == |filters|
        && Rewritten(db.elements, Elements.ElementGroup, model.group.id, elementIds,
                     ResavedElements(elements, model.group.id, elementIds))
        && Rewritten(db.filters, Filters.FilterGroup, model.group.id, filterIds,
                     ResavedFilters(filters, model.group.id, filterIds))
        && (model.elementsOverride.Some? ==> elements == model.elementsOverride.value)
        && (model.filtersOverride.Some? ==> filters == model.filtersOverride.value)
      ensures r != Done(true) ==> db.Snapshot() == snapshot
      ensures r == Done(false) ==>
        || SomeElementInvalid(elements, model.group.id, validElement)
        || SomeFilterInvalid(filters, model.group.id, validFilter)
    {
      r, elements, elementIds, filters, filterIds := ResaveLists(model, elementService, filterService, validElement, validFilter);
      if r != Done(true) {
        TablesBelowGrow(snapshot, old(db.nextGroupId), old(db.nextFilterId), old(db.nextElementId),
                        db.nextGroupId, db.nextFilterId, db.nextElementId);
        db.Rollback(snapshot);
      }
    }

    /** The element and filter halves of `saveGroup`'s transaction, one after the other. */
    method ResaveLists(model: Models.SearchGroupModel,
                       elementService: Elements.SearchGroupElements, filterService: Filters.SearchGroupFilters,
                       validElement: Element -> bool, validFilter: Filter -> bool)
      returns (r: Outcome<bool, ServiceError>, elements: seq<Element>, ghost elementIds: seq<int>,
               filters: seq<Filter>, ghost filterIds: seq<int>)
      requires db.Valid() && elementService.Valid() && filterService.Valid()
      requires elementService.db == db && filterService.db == db
      modifies db, elementService.groupElements, filterService.filters, filterService.groupFilters
      ensures db.Valid() && elementService.Valid() && filterService.Valid()
      ensures db.groups == old(db.groups) && db.nextGroupId == old(db.nextGroupId)
      ensures old(db.nextFilterId) <= db.nextFilterId && old(db.nextElementId) <= db.nextElementId
      ensures r == Done(true) ==>
        && |elementIds| == |elements| && |filterIds| == |filters|
        && Rewritten(db.elements, Elements.ElementGroup, model.group.id, elementIds,
                     ResavedElements(elements, model.group.id, elementIds))
        && Rewritten(db.filters, Filters.FilterGroup, model.group.id, filterIds,
                     ResavedFilters(filters, model.group.id, filterIds))
      ensures model.elementsOverride.Some? ==> elements == model.elementsOverride.value
      ensures r == Done(true) && model.filtersOverride.Some? ==> filters == model.filtersOverride.value
      ensures r == Done(false) ==>
        || SomeElementInvalid(elements, model.group.id, validElement)
        || SomeFilterInvalid(filters, model.group.id, validFilter)
    {
      filters, filterIds := [], [];
      elements := model.GetSearchElements(elementService);
      ghost var at;
      r, elementIds, at := ResaveElements(model.group.id, elements, elementService, validElement);
      if r != Done(true) {
        return;
      }
      filters := model.GetFilters(filterService);
      r, filterIds, at := ResaveFilters(model.group.id, filters, filterService, validFilter);
    }

    /** One iteration of `ResaveElements`: save item `i` into the group with sort order i + 1. */
    method ResaveElement(groupId: int, list: seq<Element>, i: int, ghost ids: seq<int>, ghost deleted: map<int, Element>,
                 ghost next0: int, service: Elements.SearchGroupElements, valid: Element -> bool)
      returns (r: Outcome<bool, ServiceError>, id: int)
      requires 0 <= i < |list| && |ids| == i
      requires db.Valid() && service.Valid() && service.db == db
      requires KeyedBelow(deleted, ElementId, next0) && next0 <= db.nextElementId
      requires Resaved(db.elements, deleted, Elements.ElementGroup, groupId, ids, ResavedElements(list[..i], groupId, ids))
      requires forall k :: 0 <= k < i ==> valid(list[k].(groupId := groupId, sortOrder := k + 1))
      requires forall k :: 0 <= k < i && list[k].id in deleted ==> deleted[list[k].id].groupId != groupId
      modifies db, service.groupElements
      ensures db.Valid() && service.Valid()
      ensures db.groups == old(db.groups) && db.filters == old(db.filters)
      ensures db.nextGroupId == old(db.nextGroupId) && db.nextFilterId == old(db.nextFilterId)
      ensures old(db.nextElementId) <= db.nextElementId
      ensures r == Done(false) ==> !valid(list[i].(groupId := groupId, sortOrder := i + 1))
      ensures r.Thrown? ==> r.error == SearchGroupElementNotFound(list[i].id)
      ensures r == Done(true) ==>
        && (forall k :: 0 <= k < i + 1 ==> valid(list[k].(groupId := groupId, sortOrder := k + 1)))
        && (forall k :: 0 <= k < i + 1 && list[k].id in deleted ==> deleted[list[k].id].groupId != groupId)
        && Resaved(db.elements, deleted, Elements.ElementGroup, groupId, ids + [id], ResavedElements(list[..i + 1], groupId, ids + [id]))
    {
      var e := list[i].(groupId := groupId, sortOrder := i + 1);
      ghost var before := db.elements;
      ghost var rows := ResavedElements(list[..i], groupId, ids);
      var saved;
      r, saved := service.SaveSearchElement(e, valid(e));
      id := saved.id;
      if r != Done(true) {
        return;
      }
      ResavedStep(before, deleted, Elements.ElementGroup, groupId, ids, rows, saved.id, saved);
      ResavedElementsSnoc(list, i, groupId, ids, saved.id);
    }

    /** One iteration of `ResaveFilters`: save item `i` into the group with sort order i + 1. */
    method ResaveFilter(groupId: int, list: seq<Filter>, i: int, ghost ids: seq<int>, ghost deleted: map<int, Filter>,
                 ghost next0: int, service: Filters.SearchGroupFilters, valid: Filter -> bool)
      returns (r: Outcome<bool, ServiceError>, id: int)
      requires 0 <= i < |list| && |ids| == i
      requires db.Valid() && service.Valid() && service.db == db
      requires KeyedBelow(deleted, FilterId, next0) && next0 <= db.nextFilterId
      requires Resaved(db.filters, deleted, Filters.FilterGroup, groupId, ids, ResavedFilters(list[..i], groupId, ids))
      requires forall k :: 0 <= k < i ==> valid(list[k].(groupId := groupId, sortOrder := k + 1))
      requires forall k :: 0 <= k < i && list[k].id in deleted ==> deleted[list[k].id].groupId != groupId
      modifies db, service.filters, service.groupFilters
      ensures db.Valid() && service.Valid()
      ensures db.groups == old(db.groups) && db.elements == old(db.elements)
      ensures db.nextGroupId == old(db.nextGroupId) && db.nextElementId == old(db.nextElementId)
      ensures old(db.nextFilterId) <= db.nextFilterId
      ensures r == Done(false) ==> !valid(list[i].(groupId := groupId, sortOrder := i + 1))
      ensures r.Thrown? ==> r.error == SearchGroupFilterNotFound(list[i].id)
      ensures r == Done(true) ==>
        && (forall k :: 0 <= k < i + 1 ==> valid(list[k].(groupId := groupId, sortOrder := k + 1)))
        && (forall k :: 0 <= k < i + 1 && list[k].id in deleted ==> deleted[list[k].id].groupId != groupId)
        && Resaved(db.filters, deleted, Filters.FilterGroup, groupId, ids + [id], ResavedFilters(list[..i + 1], groupId, ids + [id]))
    {
      var e := list[i].(groupId := groupId, sortOrder := i + 1);
      ghost var before := db.filters;
      ghost var rows := ResavedFilters(list[..i], groupId, ids);
      var saved;
      r, saved := service.SaveFilter(e, valid(e));
      id := saved.id;
      if r != Done(true) {
        return;
      }
      ResavedStep(before, deleted, Filters.FilterGroup, groupId, ids, rows, saved.id, saved);
      ResavedFiltersSnoc(list, i, groupId, ids, saved.id);
    }
  }
}
