# Reliquary search, modelled in Dafny

Reliquary is a search plugin for Craft CMS. This project models its core and proves properties of that model:

- **The n-gram indexer** (`buildNgram`, `processElementIndex`). A value is normalised and cut into overlapping three-character grams. One pass reconciles the pending queue, the index rows and the postings of one element on one site. The tables live in the class `IndexWriter.NgramIndex`; the pass is a method proved against a specification of the tables after it.
- **The search service** (`doSearch`, `getOptions`). This covers the option loop with its exceptions, the text-search set, the LIMIT/OFFSET window, the bucketing of page rows by element type and their in-place replacement, the pagination record, and the conflict rule for attribute options.
- **`MultiCache` and the three cache-backed repositories** (search groups, search group filters, search group elements) over abstract record tables. Each save keeps the caches coherent with the records: sort-order defaults, renumbering, re-sorting of the cached sets and eviction. Loading all groups at once is the exception noted below.
- **The adapters**: filter-query handlers, which append abstract conditions to a query; field-option and attribute-option handlers, which fill an options event with 50-item paging.
- **The model validators** of `SearchGroup`, `SearchGroupFilter` and `CustomFieldWeight`, and the override getters of `SearchGroup`.
- **The plugin's event rules** in `Reliquary.php`: the no-index class list, queue clearing before a save, job queueing after a save, deletion and the manual reindex fan-out over sites.
- **The browser helpers**: query strings, form-field flattening, base64 search parameters and query parsing in `reliquary-api.js`; the localStorage request cache and its 32-bit string hash in `reliquary-api-cache.js`. Supporting modules model `encodeURIComponent`, UTF-8, base64 and `JSON.stringify`.

Everything outside the plugin is a parameter of the model:

- `strip_tags`, `html_entity_decode`, NFKC with lower-casing, and the Unicode general categories;
- `JSON.parse`;
- database query results and scores;
- the outcomes of other event handlers and of `validate()`;
- the clock;
- whether localStorage accepts a write.

Some behaviour of the source is reproduced as it is, without being called a defect:

- A filter or search element whose group changes leaves the old group's cached set but is not added to the new group's set until that set is loaded again.
- Saving an existing filter does not touch the filter cache by id, so `getFilterById` goes on returning the model cached before the save.
- The caches are not rolled back when `saveGroup` rolls back its transaction.
- `doSearch` selects only element ids and types, so the `searchScore` field is never filled.
- `getAllGroups` finalizes and sorts a site's cached set when it meets the first row of that site. Later rows of the same site are appended without sorting, so that set can be out of sort order (`LaterSiteRowUnsorted`).

## Model

| member | source | states |
|---|---|---|
| MultiCaches.Put | src/helpers/MultiCache.php:87 | `$set[$setKey] = $item` makes the set key give the item, leaves every other set key's entry alone, keeps keys distinct, keeps an existing entry's place and appends a new one at the end |
| MultiCaches.Remove | src/helpers/MultiCache.php:107 | `unset` drops exactly the set key's entry, keeps the others and their order, and changes nothing when the key is absent |
| MultiCaches.Insert | src/helpers/MultiCache.php:121 | one insertion keeps the set in ascending rank order and adds exactly the new entry |
| MultiCaches.InsertDistinct | src/helpers/MultiCache.php:121 | inserting an entry with a new set key keeps set keys distinct |
| MultiCaches.PermutationKeys | src/helpers/MultiCache.php:121 | a reordered set holds the same set keys |
| MultiCaches.RemoveKey | src/helpers/MultiCache.php:73 | dropping a flag leaves exactly the other finalized keys, still without repeats |
| MultiCaches.SortEntries | src/helpers/MultiCache.php:121 | the `uasort` yields the entries in ascending rank order, a permutation of the input, set keys kept distinct |
| MultiCaches.MultiCache.constructor | src/helpers/MultiCache.php:13-23 | a new cache holds nothing and no key is finalized |
| MultiCaches.MultiCache.GetItem | src/helpers/MultiCache.php:40-43 | the cached slot when the key holds one, null otherwise |
| MultiCaches.MultiCache.GetItems | src/helpers/MultiCache.php:50-53 | the cached slot when the key holds one, the empty set otherwise |
| MultiCaches.MultiCache.GetKeys | src/helpers/MultiCache.php:129-132 | exactly the keys currently finalized |
| MultiCaches.MultiCache.SetItem | src/helpers/MultiCache.php:60-64 | the key now holds the item and is finalized; other keys are unchanged |
| MultiCaches.MultiCache.ClearItem | src/helpers/MultiCache.php:70-74 | the key holds nothing afterwards (null item, empty set) and is not finalized; other flags are unchanged |
| MultiCaches.MultiCache.AddItem | src/helpers/MultiCache.php:82-88 | the key's set, created when missing, holds the item under its set key, replacing any previous entry; finalization is untouched |
| MultiCaches.MultiCache.Finalize | src/helpers/MultiCache.php:94-97 | the key is finalized and what the cache holds is unchanged |
| MultiCaches.MultiCache.RemoveItem | src/helpers/MultiCache.php:104-109 | only the set key's entry of the key's set goes; an absent key or set key changes nothing; flags are untouched |
| MultiCaches.MultiCache.SortSet | src/helpers/MultiCache.php:116-122 | the key's set becomes an ascending permutation of itself, each entry keeping its set key, other keys unchanged; nothing happens for an absent key |
| Records.ModelIds | src/services/SearchGroups.php:141-143 | the ids of the cached models, one per entry, in order |
| Records.IdsBelow | src/services/SearchGroups.php:145-151 | the rows a query meets are the table's ids, each once, in ascending primary-key order |
| Records.Select | src/services/SearchGroups.php:145-151 | a query returns only rows that satisfy its condition, and every such row among the ids it scans |
| Records.TablesBelowGrow | src/services/SearchGroups.php:255-301 | a transaction snapshot stays valid while the auto-increment counters only grow |
| Records.RewrittenStep | src/services/SearchGroups.php:270-279 | each save into the group adds its id to the group's rows and the last save under an id is what the id holds |
| Records.ResavedStep | src/services/SearchGroups.php:264-279 | after the group's rows are deleted, each further save keeps the other groups' rows and keeps the deleted rows gone |
| Records.Database.Snapshot | src/services/SearchGroups.php:255 | the snapshot a transaction can return to is exactly the three tables |
| Records.Database.Rollback | src/services/SearchGroups.php:276-299 | a rollback restores the three tables to the snapshot; the counters keep their values |
| Records.Database.SaveGroup | src/services/SearchGroups.php:257 | an update keeps the row's id; an insert takes the next auto-increment id, unused before, and advances the counter |
| Records.Database.SaveFilter | src/services/SearchGroupFilters.php:172 | the same for a group filter row |
| Records.Database.SaveElement | src/services/SearchGroupElements.php:135 | the same for a group element row |
| Records.Database.DeleteGroup | src/services/SearchGroups.php:331-333 | deleting a group deletes its row and, through the cascading foreign keys, exactly its element and filter rows |
| Records.Database.DeleteElementsOfGroup | src/services/SearchGroups.php:266-268 | exactly the group's element rows are deleted |
| Records.Database.DeleteFiltersOfGroup | src/services/SearchGroups.php:282-284 | exactly the group's filter rows are deleted |
| CacheFill.AddKeepsFiledSets | src/services/SearchGroups.php:386-398 | adding a model to the set its key files it under keeps every set holding only its own models under their ids |
| CacheFill.ReplaceKeepsFiledSets | src/services/SearchGroups.php:405-414 | replacing a set by a selection or reordering of its entries keeps it filed correctly |
| CacheFill.CollectStep | src/services/SearchGroups.php:155-158 | each pass of the caching loop keeps every key seen and adds the record's |
| CacheFill.FetchedRows | src/services/SearchGroups.php:139-152 | the `not in` query fetches every row that belongs to the set and is not cached yet |
| CacheFill.FillComplete | src/services/SearchGroups.php:138-164 | once the fetched rows are cached and the set reordered, the set holds every row that belongs, and each entry was cached before or is a current row |
| CacheFill.RemovedFromSet | src/helpers/MultiCache.php:104-114 | `removeItem` leaves the set at its key without exactly the given entry, in order, and every other set as it was |
| CacheFill.SavedInPlace | src/helpers/MultiCache.php:82-127 | `addItem` of a new model (or none for a stored one) followed by `sortSet` on the same set is a save: that set gains exactly the model's entry up to order, every other set is untouched |
| CacheFill.SavedSetsAfterLeaving | src/services/SearchGroupFilters.php:154-177 | leaving the old set by `removeItem` and then being saved into the new one is a save that moves the model: the old set loses exactly its entry |
| SearchGroupsService.SortOrdersStep | src/services/SearchGroups.php:359-366 | each pass of the `reorderGroups` loop gives the next id the next sort order and keeps every other row and column |
| SearchGroupsService.RenameKeepsOldHandleAsWritten | src/services/SearchGroups.php:237-240 | as written, renaming a group that stays on its site does not drop the old handle, which the corrected test would drop |
| SearchGroupsService.EvictsHandleIffRenamed | src/services/SearchGroups.php:232-240 | the corrected test drops the handle entry exactly when the handle changes; the written one exactly when the site changes |
| SearchGroupsService.ResavedElements | src/services/SearchGroups.php:266-279 | element k of the list is saved into the group with sort order k + 1 |
| SearchGroupsService.ResavedFilters | src/services/SearchGroups.php:282-295 | filter k of the list is saved into the group with sort order k + 1 |
| SearchGroupsService.SearchGroups.constructor | src/services/SearchGroups.php:48-56 | `init` starts with four empty caches, nothing finalized |
| SearchGroupsService.SearchGroups.CacheSearchGroup | src/services/SearchGroups.php:386-398 | the group is stored and finalized under its id and its handle, and added to the 'all' set and to its site's set, which stay unfinalized as they were |
| SearchGroupsService.SearchGroups.SortSiteSearchGroups | src/services/SearchGroups.php:405-414 | a finalized site set becomes a permutation of itself in ascending sort order; an unfinalized one and all other sets are untouched |
| SearchGroupsService.SearchGroups.SortAllSearchGroups | src/services/SearchGroups.php:419-428 | a finalized 'all' set becomes a permutation of itself in ascending id order; an unfinalized one is untouched; no other key of the cache changes |
| SearchGroupsService.SearchGroups.GetGroupById | src/services/SearchGroups.php:65-83 | a finalized id answers from the cache and changes nothing; an id without a row gives null and changes nothing; otherwise the row is returned and cached in all four caches |
| SearchGroupsService.SearchGroups.GetGroupByHandle | src/services/SearchGroups.php:91-109 | the same for handles: the cached group, null when no row has the handle, else a row with that handle, cached everywhere |
| SearchGroupsService.SearchGroups.GetGroupsBySiteId | src/services/SearchGroups.php:132-165 | site 0 gives the empty list; a finalized site answers from the cache; otherwise every row of the site is added, the set is finalized and sorted by ascending sort order, and other sites' sets are untouched |
| SearchGroupsService.SearchGroups.GetAllGroups | src/services/SearchGroups.php:171-203 | the 'all' set ends finalized; the first time it holds every row, sorted by ascending id, and every site met is finalized too, sites already finalized staying so |
| SearchGroupsService.LaterSiteRowUnsorted | src/services/SearchGroups.php:186-195 | a site set finalized and sorted at its first row is out of sort order once a later row of that site with a lower sort order is added |
| SearchGroupsService.SearchGroups.FinalizeSite | src/services/SearchGroups.php:192-196 | a site set not yet finalized is finalized and sorted; a finalized one is left as it is |
| SearchGroupsService.SearchGroups.DeleteGroup | src/services/SearchGroups.php:323-347 | the row goes with its elements and filters (cascade); the group leaves the id, handle, 'all' and site caches, and every other entry of those sets is kept |
| SearchGroupsService.SearchGroups.DeleteGroupByIdAsWritten | src/services/SearchGroups.php:311-323 | as written an id with no group passes null to `deleteGroup` and throws a `TypeError` instead of returning false |
| SearchGroupsService.SearchGroups.DeleteGroupById | src/services/SearchGroups.php:306-316 | corrected: false and no change when there is no such group, otherwise the group is deleted and evicted |
| SearchGroupsService.SearchGroups.ReorderGroups | src/services/SearchGroups.php:355-379 | succeeds exactly when every id has a row; then ids[k] holds sort order k + 1 (the last position for a repeated id), nothing else changes in the rows, and every finalized site set is re-sorted as a permutation of itself; otherwise the first missing id is reported and the tables and site caches are as before |
| SearchGroupsService.SearchGroups.WriteSortOrders | src/services/SearchGroups.php:359-369 | the loop writes sort order k + 1 to ids[k], stopping at the first id without a row |
| SearchGroupsService.SearchGroups.ResortSites | src/services/SearchGroups.php:375-377 | every finalized site set ends sorted by sort order and is a permutation of what it was |
| SearchGroupsService.SearchGroups.ResaveElements | src/services/SearchGroups.php:264-279 | the group's element rows are deleted and the list saved in order with sort orders 1, 2, ...; a failed save reports its position |
| SearchGroupsService.SearchGroups.ResaveFilters | src/services/SearchGroups.php:281-295 | the same for the filters |
| SearchGroupsService.SearchGroups.EvictStale | src/services/SearchGroups.php:232-240 | a moved group leaves its old site's set; the old handle entry goes when the handle changes, by the corrected test of Findings rather than the written site test |
| SearchGroupsService.SearchGroups.PersistGroup | src/services/SearchGroups.php:242-258 | a sort order of null or 0 becomes 999 on the model, the row is written under the model's id or a fresh one, and a new model receives that id |
| SearchGroupsService.SearchGroups.CacheAndSortGroup | src/services/SearchGroups.php:258-263 | a new group is cached by id and handle and put into the 'all' set and its site set, which otherwise keep their entries up to order; a stored group's sets keep exactly their entries; every other site set is untouched; the site set and the 'all' set end sorted when finalized |
| SearchGroupsService.SearchGroups.CacheAndSortNew | src/services/SearchGroups.php:258-263 | a new group is cached by id and handle, its site set and the 'all' set gain exactly its entry up to order and end sorted when finalized, and no other set changes |
| SearchGroupsService.SearchGroups.SortNewSiteSet | src/services/SearchGroups.php:259-260 | re-sorting the site set a new group just joined keeps exactly the old entries plus the group's, up to order |
| SearchGroupsService.SearchGroups.SortNewAllSet | src/services/SearchGroups.php:261-262 | re-sorting the 'all' set a new group just joined keeps exactly the old entries plus the group's, up to order |
| SearchGroupsService.SearchGroups.ResortGroupSets | src/services/SearchGroups.php:258-263 | for a stored group every set keeps exactly its entries up to order, and the site set and the 'all' set end sorted when finalized |
| SearchGroupsService.SearchGroups.SortGroupSets | src/services/SearchGroups.php:259-262 | the site set and the 'all' set are reordered into sort order and id order when finalized; nothing else changes |
| SearchGroupsService.SearchGroups.SaveGroup | src/services/SearchGroups.php:212-303 | failing validation returns false and changes nothing; an id without a row throws; otherwise the row is written with sort order 999 when unset, a new group is cached, stale cache entries are dropped, and on success the group's elements and filters are exactly its lists with sort orders 1..n; a failed item save rolls the tables back; the caches end as a save into the site set and the 'all' set says: a new group added to both, a moved group out of its old site set with every other entry kept, other sites untouched, and a renamed group's old handle evicted (corrected, see Findings) |
| SearchGroupsService.SearchGroups.SaveValidGroup | src/services/SearchGroups.php:220-303 | `saveGroup` once validation passed and the id has a row: the same outcome as above, with the same cache sets (corrected, see Findings) |
| SearchGroupsService.SearchGroups.UpdateGroupRecord | src/services/SearchGroups.php:232-263 | the row is written; the caches end as a save says: a new group cached by id and handle and added to the 'all' set and its site set, a moved group out of its old site set with that set's other entries kept, a renamed group's old handle evicted, every other set untouched, the touched sets sorted when finalized (corrected, see Findings) |
| SearchGroupsService.SearchGroups.RewriteStoredGroup | src/services/SearchGroups.php:232-263 | a stored group: the row is replaced, the id counter kept, a moved group leaves its old site set with that set's other entries kept, a renamed group's old handle is evicted, and the sets end as a save of a group that is not new (corrected, see Findings) |
| SearchGroupsService.SearchGroups.InsertNewGroup | src/services/SearchGroups.php:243-263 | a new group gets the next id and a row, is cached by id and handle, and joins its site set and the 'all' set, which otherwise keep their entries |
| SearchGroupsService.SearchGroups.ResaveOrRollBack | src/services/SearchGroups.php:255-301 | both lists are resaved in order, or the tables return to their state before the transaction |
| SearchGroupFiltersService.RecordIdsStep | src/services/SearchGroupFilters.php:86-87 | the ids collected by the loop grow by the id of each row it meets |
| SearchGroupFiltersService.SearchGroupFilters.constructor | src/services/SearchGroupFilters.php:37-43 | `init` starts with two empty caches |
| SearchGroupFiltersService.SearchGroupFilters.CacheFilter | src/services/SearchGroupFilters.php:192-200 | the filter is stored under its id and added to its group's set under its id |
| SearchGroupFiltersService.SearchGroupFilters.SortGroupFilters | src/services/SearchGroupFilters.php:206-216 | a finalized group set becomes a permutation of itself in ascending sort order; otherwise nothing changes |
| SearchGroupFiltersService.SearchGroupFilters.CacheRecords | src/services/SearchGroupFilters.php:86-90 | every fetched row ends up in the group's set and in the id cache |
| SearchGroupFiltersService.SearchGroupFilters.GetFiltersByGroup | src/services/SearchGroupFilters.php:50-57 | the filters of the group's id: the finalized set of that id, or nothing for id 0 |
| SearchGroupFiltersService.SearchGroupFilters.GetFiltersByGroupId | src/services/SearchGroupFilters.php:64-97 | group 0 gives the empty list and changes nothing; a finalized group answers from the cache; otherwise every row of the group is added, the set is finalized and sorted by ascending sort order, and other groups' sets are untouched |
| SearchGroupFiltersService.SearchGroupFilters.GetFilterById | src/services/SearchGroupFilters.php:104-126 | id 0 gives null; a cached filter is returned as it is; an id without a row gives null; otherwise the row is returned and cached by id and in its group's set |
| SearchGroupFiltersService.SearchGroupFilters.SaveFilter | src/services/SearchGroupFilters.php:134-186 | failing validation returns false and changes nothing; an id without a row throws the not-found error; otherwise the row is written with sort order 999 when unset, a new filter receives the next id and is cached, a moved filter leaves its old group's set, and its group's finalized set stays sorted; the group set the filter leaves loses exactly its entry, a new filter's group set gains exactly its entry up to order, a stored filter's set keeps exactly its entries, and every other group's set is untouched |
| SearchGroupFiltersService.SearchGroupFilters.WriteFilter | src/services/SearchGroupFilters.php:153-185 | the write after the record is found, with the same new state, cached sets included |
| SearchGroupFiltersService.SearchGroupFilters.CacheAndSort | src/services/SearchGroupFilters.php:175-179 | a new filter is cached by id and its group set gains exactly its entry up to order; a stored filter's set keeps exactly its entries; only its group's set is re-sorted and every other set is untouched |
| SearchGroupElementsService.SearchGroupElements.constructor | src/services/SearchGroupElements.php:32-37 | `init` starts with an empty cache |
| SearchGroupElementsService.SearchGroupElements.CacheSearchElement | src/services/SearchGroupElements.php:155-162 | the element is added to its group's set under its id |
| SearchGroupElementsService.SearchGroupElements.SortGroupElements | src/services/SearchGroupElements.php:168-178 | a finalized group set becomes a permutation of itself in ascending sort order; otherwise nothing changes |
| SearchGroupElementsService.SearchGroupElements.CacheRecords | src/services/SearchGroupElements.php:80-84 | every fetched row ends up in the group's set |
| SearchGroupElementsService.SearchGroupElements.GetSearchElementsByGroup | src/services/SearchGroupElements.php:44-51 | the elements of the group's id: the finalized set of that id, or nothing for id 0 |
| SearchGroupElementsService.SearchGroupElements.GetSearchElementsByGroupId | src/services/SearchGroupElements.php:58-91 | group 0 gives the empty list; a finalized group answers from the cache; otherwise every row of the group is added, the set is finalized and sorted by ascending sort order, and other groups' sets are untouched |
| SearchGroupElementsService.SearchGroupElements.SaveSearchElement | src/services/SearchGroupElements.php:99-149 | failing validation returns false and changes nothing; an id without a row throws; otherwise the row is written with sort order 999 when unset, a new element receives the next id and joins its group's set, a moved element leaves its old group's set, and the finalized set stays sorted; the group set the element leaves loses exactly its entry, a new element's group set gains exactly its entry up to order, a stored element's set keeps exactly its entries, and every other group's set is untouched |
| SearchGroupElementsService.SearchGroupElements.WriteElement | src/services/SearchGroupElements.php:118-148 | the write after the record is found, with the same new state, cached sets included |
| SearchGroupElementsService.SearchGroupElements.LeaveGroup | src/services/SearchGroupElements.php:120-122 | the old group's set becomes that set with exactly the element's entry removed, in order; other sets are untouched |
| SearchGroupElementsService.SearchGroupElements.CacheAndSort | src/services/SearchGroupElements.php:138-142 | a new element's group set gains exactly its entry up to order; a stored element's set keeps exactly its entries; only that set is re-sorted and every other set is untouched |
| Ngram.DropSeparators | src/helpers/Search.php:75 | the rest of a separator run is the longest suffix that does not start with a separator, and everything skipped was a separator |
| Ngram.GramsShape | src/helpers/Search.php:81-87 | a text of length L ≥ 3 gives exactly L − 2 grams, gram k being the three characters from position k; a shorter text gives none |
| Ngram.BuildNgram | src/helpers/Search.php:24-88 | the grams are the 3-character windows, left to right, of the text after strip tags, entity decoding, folding (NFKC plus lower case with intl, lower case without), collapsing separators and deleting controls and marks, in that order; L − 2 of them, each of length 3 (valid UTF-8 text only, see Left out) |
| Ngram.CollapseSeparatorsSpec | src/helpers/Search.php:75 | collapsing keeps the non-separator characters in order, turns every separator into one U+0020 and never leaves two separators side by side |
| Ngram.CollapseKeepsTrailingSpace | src/helpers/Search.php:75 | a text ending in a separator collapses to one ending in a space |
| Ngram.DeleteControlMarksSpec | src/helpers/Search.php:78 | deleting keeps every character that is not a control or mark as often as it occurs, drops every control and mark, and keeps the order (with `DeleteControlMarksAppend`) |
| Ngram.DeleteControlMarksAppend | src/helpers/Search.php:78 | the deletion works character by character, so it distributes over concatenation |
| Ngram.CleanCharacters | src/helpers/Search.php:75-78 | the cleaned text holds no control or mark character, and the only separator left in it is U+0020 |
| Ngram.CollapseWrapped | src/helpers/Search.php:75 | a space-wrapped text with a surviving character collapses to a space, then that character's run, then a space (also lines 229-232) |
| Ngram.WrappedValueYieldsGram | src/helpers/Search.php:229-232 | a value wrapped in spaces, once it holds one letter-like character after folding, gives at least one gram, as the comment at the wrapping promises |
| IndexWriter.ForElement | src/helpers/Search.php:101-102 | the queue rows of one element on one site, and only those |
| IndexWriter.WithoutElement | src/Reliquary.php:209 | clearing the pending queue drops exactly the rows of the element on the site and keeps every other row |
| IndexWriter.LatestSpec | src/helpers/Search.php:98-123 | `MAX(id)` grouped by field and attribute keeps one value per queued target, the last one queued for it, and loses no target |
| IndexWriter.PendingSpec | src/helpers/Search.php:98-123 | the values a pass indexes belong to the element on the site, have distinct targets, cover every target queued for it and are each the latest queued for that target |
| IndexWriter.SiteItems | src/helpers/Search.php:101-102 | the second `where` replaces the first, so the lookup keeps every queue row of the site, whatever its element |
| IndexWriter.PendingAsWritten | src/helpers/Search.php:98-123 | the lookup as written only promises rows of the site, not rows of the element |
| IndexWriter.PendingAsWrittenTakesOtherElements | src/helpers/Search.php:101-102 | with two elements queueing the same field on one site, the lookup as written picks the other element's later value, while the intended lookup picks the element's own |
| IndexWriter.RowsOf | src/helpers/Search.php:125-137 | the ids of the index rows of exactly the element on the site |
| IndexWriter.TargetIndex | src/helpers/Search.php:139-145 | `$indexMap` sends each target of the element's rows to the row with that target, and every such row is reached |
| IndexWriter.TargetIndexUnique | src/helpers/Search.php:139-145 | any map that inverts the element's row targets is `$indexMap` |
| IndexWriter.StagedBeforeMono | src/helpers/Search.php:159-166 | the offset `count($newIndexes)` only grows along the pending values, and strictly past a staged one |
| IndexWriter.StagedBeforeAtMost | src/helpers/Search.php:159-166 | no more values are staged than have been visited |
| IndexWriter.AssignedIdsDistinct | src/helpers/Search.php:158-169 | two pending values with distinct targets are written under distinct index ids (also line 237) |
| IndexWriter.StagedIdInBatch | src/helpers/Search.php:182 | a staged value's id `$firstId + offset` lies in the block the batch insert allocates (also line 237) |
| IndexWriter.StagedOffsetHit | src/helpers/Search.php:159-166 | every offset of the batch belongs to some staged value |
| IndexWriter.PostingCountOfGrams | src/helpers/Search.php:253-272 | a row holding exactly the grams of its value counts that many postings |
| IndexWriter.NothingPending | src/helpers/Search.php:109-112 | an element with nothing pending has no queue rows, so the early return leaves the queue as clearing it would |
| IndexWriter.WithoutElementNoop | src/Reliquary.php:209 | clearing the queue of an element that has no rows in it changes nothing |
| IndexWriter.Batch | src/helpers/Search.php:172-182 | the batch insert adds target `newIndexes[k]` under id `firstId + k` for the element on the site, with no grams counted, and no other rows |
| IndexWriter.StagedTargetAt | src/helpers/Search.php:159-168 | the staged target at offset k of the batch is the pending value that was given offset k |
| IndexWriter.StageValues | src/helpers/Search.php:153-169 | each pending value reuses the row `$indexMap` gives its target, which is then spared from deletion, or is staged at the next offset; the rows to delete are the element's rows no pending value reuses |
| IndexWriter.AddGrams | src/helpers/Search.php:234-241 | the postings of one value are its grams under its id at offsets 0, 1, 2, …, added beside the others without touching them |
| IndexWriter.BuildPostings | src/helpers/Search.php:226-242 | every pending value's grams are posted under the id its slot resolves to, and nothing else is posted |
| IndexWriter.AddValuePostings | src/helpers/Search.php:226-242 | one pass of the loop adds the postings of one more pending value and keeps the earlier ones |
| IndexWriter.AssignedRow | src/helpers/Search.php:153-182 | after the batch insert, each pending value's id names a row of the element with that value's target: its reused row, unchanged, or a new row with no grams |
| IndexWriter.ReusedRowKept | src/helpers/Search.php:156-158 | a reused row keeps its id, its target and its contents through the batch insert |
| IndexWriter.NewRowAdded | src/helpers/Search.php:172-182 | an id of the batch names the new row of the batch and no earlier row |
| IndexWriter.BatchRowAssigned | src/helpers/Search.php:159-182 | every new row of the batch is the row of some staged value |
| IndexWriter.RowsBounded | src/helpers/Search.php:148-224 | after a pass every id lies below the next free id, every new row belongs to the element, and other elements' rows are untouched |
| IndexWriter.RowsSurvive | src/helpers/Search.php:148-151 | an existing row of the element survives exactly when its target was queued, and every pending value's row exists afterwards (also lines 217-224) |
| IndexWriter.RowsAssigned | src/helpers/Search.php:153-224 | after a pass every row of the element is the row of some queued value |
| IndexWriter.RowsUnique | src/migrations/Install.php:113 | a pass keeps the unique index on element, site, field and attribute |
| IndexWriter.NewDataOfElement | src/helpers/Search.php:226-242 | every posting built in a pass points at a row of the element on the site |
| IndexWriter.PostingsOthers | src/helpers/Search.php:185-251 | postings of other elements and sites pass through untouched, and no posting outside the new data and theirs remains |
| IndexWriter.DropRows | src/helpers/Search.php:217-224 | deleting by id keeps exactly the rows whose id is not listed, unchanged |
| IndexWriter.DropPostings | src/helpers/Search.php:185-215 | deleting through the join keeps exactly the postings whose row is not listed, unchanged |
| IndexWriter.CountedRows | src/helpers/Search.php:253-299 | the element's rows that have postings take their posting count; the inner join leaves rows without postings and every other row as they were; no row appears or disappears |
| IndexWriter.SlotsResolve | src/helpers/Search.php:153-169 | the ids the staged slots resolve to are the assigned ids, and they are distinct (also line 237) |
| IndexWriter.PassValid | src/helpers/Search.php:95-303 | a pass keeps the tables consistent (every posting points at a row, unique targets, ids below the counter), with the counter moved past the batch |
| IndexWriter.PassReindexes | src/helpers/Search.php:95-303 | a pass leaves the tables reindexed: the element's rows are exactly one per pending target, each holding exactly its value's grams, and nothing of other elements changes |
| IndexWriter.PassPostings | src/helpers/Search.php:185-251 | after a pass the other elements' postings are untouched and every other posting belongs to a pending value's row |
| IndexWriter.PassAssignsRow | src/helpers/Search.php:95-303 | a pending value ends in its assigned row of the element, with its target, holding exactly its grams, with a count equal to their number (or the old count when it has none) |
| IndexWriter.NgramIndex.constructor | src/migrations/Install.php:19-109 | the queue and both index tables start empty, with ids starting at 1 |
| IndexWriter.NgramIndex.IndexMapFor | src/helpers/Search.php:125-151 | the method computes `$indexMap` and `$indexesToDelete`: the target map of the element's rows and the set of all their ids |
| IndexWriter.NgramIndex.InsertIndexRows | src/helpers/Search.php:171-182 | the batch insert adds the batch rows and reports the first new id; the id counter moves past them |
| IndexWriter.NgramIndex.DeleteElementPostings | src/helpers/Search.php:185-215 | every posting of the element's rows on the site is deleted and no other |
| IndexWriter.NgramIndex.DeleteIndexRows | src/helpers/Search.php:217-224 | exactly the listed rows are deleted |
| IndexWriter.NgramIndex.InsertPostings | src/helpers/Search.php:244-251 | the new postings are added to the table |
| IndexWriter.NgramIndex.UpdateNgramCounts | src/helpers/Search.php:253-299 | the element's rows take their new posting counts as `CountedRows` says |
| IndexWriter.NgramIndex.ClearPendingIndexQueue | src/helpers/Search.php:302 | the queue loses the rows of the element on the site and keeps the others |
| IndexWriter.NgramIndex.DeleteIndexDataForElement | src/Reliquary.php:192-199 | after an element is deleted its index rows on every site and their postings are gone, and every other row and posting is unchanged |
| IndexWriter.NgramIndex.ClearIndexTables | src/Reliquary.php:147-153 | the index rows and postings are emptied |
| IndexWriter.NgramIndex.ProcessElementIndex | src/helpers/Search.php:95-303 | with nothing pending nothing changes; otherwise the element's rows on the site are reindexed from its latest queued values, the id counter moves past the new rows, and the element's queue rows are cleared last (corrected, see Findings) |
| IndexWriter.NgramIndex.ReindexPending | src/helpers/Search.php:120-299 | the pass over the pending values leaves the tables reindexed and consistent, with the counter moved past the batch |
| SearchService.FilterOutcome | src/services/Search.php:290-310 | an attribute filter ends the search with the failed lookup of its absent field, which the missing-handler message at line 305 performs before that exception is built; a field filter no handler takes ends it with the missing-handler error, and that error comes only from field filters; a filter that goes through is a field filter whose handler took the value and said whether it goes to the text search (corrected, see Findings) |
| SearchService.Live | src/services/Search.php:264-267 | the options that are set and not empty, and only those, in order |
| SearchService.EmptyOptionsIgnored | src/services/Search.php:264-267 | empty options are never checked, never counted as duplicates and never reach a handler |
| SearchService.ScanAccepts | src/services/Search.php:268-311 | an accepted option marks its key as checked and, when routed to the text search, sets its value under its key before the rest are read |
| SearchService.ScanDone | src/services/Search.php:264-312 | on set options the loop succeeds exactly when no key repeats or was checked before and every option is accepted |
| SearchService.ScanValue | src/services/Search.php:275-310 | after a successful loop every routed option's value sits under its key, and a key no option uses keeps its value |
| SearchService.OptionsOutcome | src/services/Search.php:258-312 | the option loop succeeds exactly when the live options have distinct keys and are all accepted; the text search set then holds exactly the routed keys, each with its option's value |
| SearchService.DuplicateBeforeUnknown | src/services/Search.php:270-286 | the duplicate check runs before the filter lookup, so a filter id of −1 after a general term is reported as a duplicate rather than as an unknown filter |
| SearchService.IndexFilters | src/services/Search.php:202-205 | `$filters` keys each of the group's filters by its id, a later filter with the same id replacing an earlier one |
| SearchService.FilterIndex | src/services/Search.php:202-205 | every filter's id is a key, and each key gives a filter of the list with that id |
| SearchService.ScanStep | src/services/Search.php:264-311 | one turn of the loop: skip an empty option, fail on a checked key, record a general term, fail on an unknown filter, or apply the handler's outcome |
| SearchService.ApplyOptions | src/services/Search.php:258-312 | the loop over the options ends as `Scan` says: the error it throws, or the text search set; on success the query's joins and conditions are the old ones followed by what the handlers of the filter options add, in option order (`QueryJoins`, `QueryConditions`) (corrected, see Findings) |
| SearchService.ApplyFilter | src/services/Search.php:290-310 | a filter's event ends as `FilterOutcome` says, and when it goes through, the filter is on a known field and the query gains exactly that field class's joins and conditions (corrected, see Findings) |
| SearchService.QueryStep | src/services/Search.php:264-311 | one more option adds to the query what its filter's handler adds, or nothing when it reaches none |
| SearchService.BucketOf | src/services/Search.php:438-441 | the position of the bucket of a type, or the end when there is none, and no earlier bucket has that type |
| SearchService.AddToBucketTypes | src/services/Search.php:438-441 | adding a row keeps one bucket per type and adds the row's type |
| SearchService.BucketedTypes | src/services/Search.php:434-442 | `$elementTypeIndex` has one bucket per type, for exactly the types of the rows |
| SearchService.IdsOfAbsentType | src/services/Search.php:434-442 | a type no row has lists no ids |
| SearchService.BucketedIds | src/services/Search.php:441 | each bucket lists the ids of its type's rows in row order |
| SearchService.IdsOfTypeMembers | src/services/Search.php:441 | an id is listed for a type exactly when a row of that type carries it |
| SearchService.IdInOwnBucketOnly | src/services/Search.php:434-442 | when each id has one type, a row's id is in its type's bucket and in no other |
| SearchService.RowIndex | src/services/Search.php:437 | `$elementIndex` has an entry for every row id, each an unloaded row with that id |
| SearchService.IndexRows | src/services/Search.php:434-442 | the loop over the page rows builds the row index and the type buckets |
| SearchService.Overlay | src/services/Search.php:455-461 | every element a handler returned replaces the entry under its id; other entries stay |
| SearchService.LoadAll | src/services/Search.php:445-462 | loading succeeds exactly when every bucket's type has a handler, keeps every entry's id, and otherwise fails with the missing handler of some bucket |
| SearchService.LoadElements | src/services/Search.php:445-462 | the loading loop over the buckets ends as `LoadAll` says |
| SearchService.LoadAllEntry | src/services/Search.php:445-462 | an id in one bucket ends with the element that bucket's handler returned for it, or with its row when the handler returned none |
| SearchService.LoadAllUntouched | src/services/Search.php:445-462 | an id in no bucket keeps its entry |
| SearchService.ReplaceRows | src/services/Search.php:465-467 | each row is replaced in place by its entry, keeping the page's order and length |
| SearchService.CeilDiv | src/services/Search.php:469 | `ceil(a / b)` for a positive b is the least r with a ≤ r·b |
| SearchService.Paginate | src/services/Search.php:469-482 | the record keeps the total, the page and the page size |
| SearchService.PaginationSound | src/services/Search.php:424-482 | for a positive page size and a page in the results, the page covers results size·(page−1)+1 to min(size·page, total), the page count is the fewest pages holding the total, a previous page exists exactly from page 2, and a next page exactly when the page ends before the last result |
| SearchService.NextPageIff | src/services/Search.php:469-479 | `page + 1 <= totalPages` holds exactly when the page ends before the last result |
| SearchService.FinishNeedsHandlers | src/services/Search.php:445-453 | the search fails with the missing elements handler exactly when a row on the page has a type without one, whatever the page size |
| SearchService.BucketsCovered | src/services/Search.php:445-453 | every bucket's type has a handler exactly when every row's type has one |
| SearchService.FinishElements | src/services/Search.php:431-467 | with handlers that return only what they were asked for, the page entries follow the page rows one to one and in order, each the element its type's handler returned for that id, or the row |
| SearchService.DoSearch | src/services/Search.php:190-483 | an unknown group fails first; then the first search element whose type has no extend-element-type-query handler fails with that type, before any option is read; a failing option loop ends the search with its error; otherwise the query is built for the group's site, elements, text search set and order, and the result is the page of its rows with their elements and pagination; the filter query's joins and conditions are exactly those the group's filter options add, in order (corrected, see Findings) |
| SearchService.UnextendedFirst | src/services/Search.php:227-238 | no search element is reported exactly when every search element's type has an extend-element-type-query handler; a reported type is that of the first search element without one |
| SearchService.ExtendTypeQueries | src/services/Search.php:227-238 | the loop over the search elements stops at the first type whose event keeps its `null` query, on which `addSelect` fails, and reports no type when every event was answered |
| SearchService.FinishSearch | src/services/Search.php:424-482 | the end of the search computes the page, loads its elements and builds the pagination as `Finish` says |
| SearchService.HandledStates | src/services/Search.php:143-153 | the handled events among those raised, and only those, in order |
| SearchService.FirstHandled | src/services/Search.php:164 | `$handled[0]` is the first event raised that was handled |
| SearchService.ConflictIffDisagreement | src/services/Search.php:155-160 | comparing each handled event with the first finds a conflict exactly when some two handled events differ in type or total |
| SearchService.ConflictFromPair | src/services/Search.php:155-160 | two handled events that differ in type or total make the options conflict |
| SearchService.PairFromConflict | src/services/Search.php:155-160 | a conflict is always witnessed by two handled events that differ |
| SearchService.NoHandlerIffNoneHandled | src/services/Search.php:161-163 | the missing-handler error is thrown exactly when no event was handled |
| SearchService.PickedFirstHandled | src/services/Search.php:155-164 | the result is the first handled event, and every handled event agrees with it in type and total |
| SearchService.AttributeStates | src/services/Search.php:144-149 | one new event per search element of the group |
| SearchService.GetOptions | src/services/Search.php:127-166 | a missing filter fails; a field filter's event goes to its field's handler and fails when unhandled; an attribute filter's events go to every element type and the result is the first handled one, unless two disagree or none was handled |
| SearchService.CollectAttributeOptions | src/services/Search.php:143-153 | the loop keeps exactly the handled events, in order |
| SearchService.CollectStep | src/services/Search.php:150-152 | one more element type adds its event exactly when it was handled |
| SearchService.AskElementType | src/services/Search.php:145-149 | a new event for the attribute and hint, passed to the element type's handler |
| SearchService.PickAmongHandled | src/services/Search.php:155-164 | on handled events the choice is a conflict, the missing handler, or the first event |
| SearchService.ChooseAttributeOptions | src/services/Search.php:155-164 | the conflict check and then the emptiness check end as `PickAttributeOptions` says |
| SearchService.HandledStatesStep | src/services/Search.php:150-152 | collecting one more event appends it exactly when it was handled |
| QueryBuilder.Window | src/services/Search.php:427-431 | `LIMIT`/`OFFSET` give the rows from the offset (negative as 0), at most `limit` of them (none left when the offset is past the end), in order |
| OptionEvents.OptionsEvent.constructor | src/events/ReliquaryGetFieldOptions.php:37-53 | a new event is unhandled, without a type, not partial, without options and with a total of 0, holding the caller's hint |
| OptionEvents.ItemEntries | src/adapters/FieldOptions.php:177-183 | one option per item, in order, with the item's id as its value and its title as its label |
| OptionEvents.PageSound | src/adapters/FieldOptions.php:169-175 | a page holds at most 50 items; a numeric hint h ≥ 1 picks items 50·(h−1) to 50·h clipped to the matches; any other hint picks the first 50 |
| OptionEvents.PagedPartial | src/adapters/FieldOptions.php:169-186 | a paged list is partial exactly when more than 50 items match, whatever the page, and its total counts every match, not the page |
| OptionEvents.ListPage | src/adapters/FieldOptions.php:138-187 | the handler marks the event handled with its type, the total of all matches, one option per item of the page and `partial` when more than 50 match |
| FilterQueries.AliasInjective | src/adapters/FilterQueries.php:167-168 | the table alias `prefix . id` names one filter only, so two filters never share an alias |
| FilterQueries.Hex4 | src/adapters/FilterQueries.php:233 | the four lower-case hex digits `json_encode` writes in a `\u` escape |
| FilterQueries.JsonChar | src/adapters/FilterQueries.php:233 | a character inside a JSON string is itself or an escape starting with a backslash |
| FilterQueries.JsonString | src/adapters/FilterQueries.php:233-255 | `json_encode` of a text is quoted at both ends |
| FilterQueries.EscapeWildcards | src/adapters/FilterQueries.php:233-255 | `addcslashes(…, '%_')` never shortens the text |
| FilterQueries.EscapeWildcardsSound | src/adapters/FilterQueries.php:233-255 | after escaping, every `%` and `_` is escaped, and removing the escapes gives the text back |
| FilterQueries.LikePatternSound | src/adapters/FilterQueries.php:233 | the LIKE pattern matches the JSON string of the value literally: no wildcard is left unescaped, and unescaping gives the JSON string, which starts with a quote (also lines 255, 354) |
| FilterQueries.LikeAll | src/adapters/FilterQueries.php:227-234 | one LIKE condition per text, in order, each on the field column with that text's pattern |
| FilterQueries.StringRun | src/adapters/FilterQueries.php:227-232 | the loop reaches the first non-string item, after adding a condition for every string before it |
| FilterQueries.Texts | src/adapters/FilterQueries.php:227-232 | the texts of the leading strings, in order |
| FilterQueries.FieldHandling | src/adapters/FilterQueries.php:41-157 | a filter is handled exactly when its field type has a handler; relation fields need an array, the single-choice and text fields a string, the multi-choice fields an array of strings, else the bad-data error; only plain text goes to the text search (corrected, see Findings) |
| FilterQueries.FilterQuery.constructor | src/services/Search.php:259-262 | the filter query starts with no joins and no conditions |
| FilterQueries.ModifyFilterQuery.constructor | src/events/ReliquaryModifyFilterQuery.php:15-42 | a new event holds the query, filter and value, unhandled and not sent to the text search |
| FilterQueries.FilterRelationsQuery | src/adapters/FilterQueries.php:158-214 | a relation filter marks the event handled; a value that is not an array is bad data and adds nothing; an array joins the relations and target tables under the filter's aliases and adds the id condition and the site and field scope (also lines 312-410) |
| FilterQueries.FilterContainsAllQuery | src/adapters/FilterQueries.php:216-235 | a multi-choice filter needs an array of strings; it joins the content table and adds one LIKE per leading string, so an array with a non-string item fails after the conditions of the strings before it (also lines 274-293) |
| FilterQueries.FilterContainsQuery | src/adapters/FilterQueries.php:242-256 | a dropdown or radio filter needs a string and adds one LIKE on the JSON string of the value (also lines 341-355) |
| FilterQueries.FilterLightswitchQuery | src/adapters/FilterQueries.php:258-272 | a lightswitch filter needs a string and adds an equality on the field column |
| FilterQueries.FilterPlainTextQuery | src/adapters/FilterQueries.php:300-310 | a plain-text filter needs a string and is sent to the text search, without changing the query |
| FilterQueries.FilterMapFieldQuery | src/adapters/FilterQueries.php:415-464 | a map filter needs an array; with no coordinate at all it adds nothing; with all three set and numeric it joins the map table and adds the radius and scope conditions; anything else is bad data |
| FilterQueries.ModifyFieldFilterQuery | src/adapters/FilterQueries.php:41-157 | the handler bound to the field's class decides handled, text search and error as `FieldHandling` says; an unbound class leaves the query alone; a handler that answers without error appends exactly its class's joins and conditions (`HandlerJoins`, `HandlerConditions`: relation joins with an id or scope test, a content join with LIKE tests, an equality for lightswitches, a map join with a radius test) to the query (corrected, see Findings) |
| FilterQueries.ModifyFieldFilterQueryAsWritten | src/adapters/FilterQueries.php:77-81 | as registered, a lightswitch filter calls the misspelled `filterLigthswitchQuery`, which fails as an invalid callback and leaves the event unhandled |
| FieldOptions.Drop | src/adapters/FieldOptions.php:146 | `substr($s, $n)` is the rest after the first n characters, empty when the text is shorter (also lines 194, 263, 368) |
| FieldOptions.PrefixesDropped | src/adapters/FieldOptions.php:146 | the lengths cut off are exactly those of `volume:`, `group:`, `section:` and `taggroup:` (also lines 194, 263, 368) |
| FieldOptions.KeyedCriteria | src/adapters/FieldOptions.php:152-160 | with all sources, the uids are those of the sources that have a key other than `*` (also lines 265-272) |
| FieldOptions.SourceUids | src/adapters/FieldOptions.php:148-151 | with chosen sources, one uid per source, its prefix cut off (also lines 261-264) |
| FieldOptions.CollectUids | src/adapters/FieldOptions.php:144-164 | the source loop collects the uids as `SourceUids` says (also lines 261-273) |
| FieldOptions.ConfiguredEntries | src/adapters/FieldOptions.php:224-230 | one option per configured option, in order, with its value and its translated label |
| FieldOptions.NumberRangeOf | src/adapters/FieldOptions.php:331-341 | the intended range record gives the field's minimum as `min`, its maximum as `max`, and its decimals |
| FieldOptions.NumberRangeSwappedAsWritten | src/adapters/FieldOptions.php:337-338 | as written, a field from 0 to 10 reports min 10 and max 0 |
| FieldOptions.FieldOptionsState | src/adapters/FieldOptions.php:43-136 | a field type is handled exactly when a handler is bound to it, and its type is `multiple`, `single`, `string`, `number`, `date` or `map` by field kind; a partial list always has more than 50 matches |
| FieldOptions.ListedOptions | src/adapters/FieldOptions.php:220-329 | choice fields list one option per configured option, with its value, and count them; a lightswitch lists true and false and counts 2 (also lines 349-361) |
| FieldOptions.PagedOptions | src/adapters/FieldOptions.php:138-218 | relation fields count every matching element, list the page picked by the hint (at most 50) and are partial exactly when more than 50 match (also lines 254-298, 363-419) |
| FieldOptions.GetAssetsOptions | src/adapters/FieldOptions.php:138-187 | the assets handler leaves the event as `FieldOptionsState` says for assets |
| FieldOptions.GetCategoriesOptions | src/adapters/FieldOptions.php:189-218 | the categories handler leaves the event as `FieldOptionsState` says for categories |
| FieldOptions.GetEntriesOptions | src/adapters/FieldOptions.php:254-298 | the entries handler leaves the event as `FieldOptionsState` says for entries |
| FieldOptions.GetTagsOptions | src/adapters/FieldOptions.php:363-392 | the tags handler leaves the event as `FieldOptionsState` says for tags |
| FieldOptions.GetUsersOptions | src/adapters/FieldOptions.php:394-419 | the users handler leaves the event as `FieldOptionsState` says for users |
| FieldOptions.ListConfigured | src/adapters/FieldOptions.php:220-252 | the choice handlers mark the event handled, set its type, list the configured options and count them |
| FieldOptions.GetLightswitchOptions | src/adapters/FieldOptions.php:300-315 | the lightswitch handler lists true and false as a single choice, with a total of 2 |
| FieldOptions.GetNumberOptions | src/adapters/FieldOptions.php:331-341 | the corrected number handler reports the field's range as `NumberRangeOf` says |
| FieldOptions.GetNumberOptionsAsWritten | src/adapters/FieldOptions.php:331-341 | the number handler as written reports the swapped range |
| FieldOptions.Classify | src/adapters/FieldOptions.php:234-238 | the date, plain-text and map handlers only mark the event handled and set its type (also lines 343-347, 421-425) |
| FieldOptions.GetFieldOptions | src/adapters/FieldOptions.php:43-136 | the handler bound to the field's class leaves the event as `FieldOptionsState` says (corrected, see Findings) |
| AttributeOptions.AnswerFor | src/adapters/AttributeOptions.php:61-131 | file kind is answered only for assets' `kind`, authors only for entries' `author`, dates only for entries' `postDate` and `expiryDate`; no attribute, no answer |
| AttributeOptions.KindEntries | src/adapters/AttributeOptions.php:151-156 | one option per file kind, in order, with the kind's label as the value and the kind as the label, as written |
| AttributeOptions.AttributeOptionsState | src/adapters/AttributeOptions.php:61-186 | an attribute is handled exactly when its element type answers it; text and date attributes have their type and a total of 0, file kinds list the kinds with a total of 0, authors are paged by 50 |
| AttributeOptions.HandledAttributes | src/adapters/AttributeOptions.php:61-131 | the handled attributes are exactly assets' title, filename and kind; categories' and tags' title; entries' title, author, slug, postDate and expiryDate; users' username, firstName, lastName and email |
| AttributeOptions.HandleStringAttribute | src/adapters/AttributeOptions.php:133-138 | a text attribute is handled as `string` with no options |
| AttributeOptions.HandleDateAttribute | src/adapters/AttributeOptions.php:140-145 | a date attribute is handled as `date` with no options |
| AttributeOptions.HandleFileKindAttribute | src/adapters/AttributeOptions.php:147-158 | the file kinds are listed as a multiple choice, with a total of 0 |
| AttributeOptions.HandleAuthorAttribute | src/adapters/AttributeOptions.php:160-185 | the authors are paged by 50 as a multiple choice, partial when more than 50 can edit entries |
| AttributeOptions.GetAttributeOptions | src/adapters/AttributeOptions.php:28-131 | the handler of the element type leaves the event as `AttributeOptionsState` says |
| ReliquaryApi.EncodeSearchParams | src/assets/dist/js/reliquary-api.js:178-187 | the search string exists exactly when the JSON text is Latin-1 (otherwise `btoa` throws), and it never holds the `=` padding |
| ReliquaryApi.DecodeEncodeSearchParams | src/assets/dist/js/reliquary-api.js:178-203 | decoding an encoded search object gives the parse of its JSON text: the padding cut by the encoder does not break `atob` |
| ReliquaryApi.WideSearchThrows | src/assets/dist/js/reliquary-api.js:182 | a search object holding a character above U+00FF (`{q: "€"}`) has no encoding: `btoa` throws |
| ReliquaryApi.EncodeSearchParamsUtf8 | src/assets/dist/js/reliquary-api.js:178-187 | the corrected encoder (UTF-8 bytes before base 64) is total and leaves no `=` |
| ReliquaryApi.DecodeEncodeSearchParamsUtf8 | src/assets/dist/js/reliquary-api.js:178-203 | with the corrected encoder every search object round-trips through its search string, whatever characters it holds |
| ReliquaryApi.Utf8EncodingAgreesOnAscii | src/assets/dist/js/reliquary-api.js:178-187 | on seven-bit JSON text the corrected encoder gives exactly what the original one gives |
| ReliquaryApi.FieldTexts | src/assets/dist/js/reliquary-api.js:336-338 | one `name=value` element per field, in order, each the encoded name and encoded value |
| ReliquaryApi.SerializeObject | src/assets/dist/js/reliquary-api.js:334-340 | the `forEach` loop yields the fields' elements joined with `&` |
| ReliquaryApi.PropFields | src/assets/dist/js/reliquary-api.js:166-167 | one field per property, same name and value, in `for ... in` order |
| ReliquaryApi.CreateQueryStringFromData | src/assets/dist/js/reliquary-api.js:164-170 | the loop yields the serialization of the object's properties; an object without properties gives the empty string |
| ReliquaryApi.ConcatAllKeeps | src/assets/dist/js/reliquary-api.js:315-317 | concatenating parts that hold only leaves under a prefix keeps both facts |
| ReliquaryApi.PrefixedWithin | src/assets/dist/js/reliquary-api.js:316 | a name under `prefix[key]` is also under `prefix` |
| ReliquaryApi.Flatten | src/assets/dist/js/reliquary-api.js:307-325 | every field of the flattened value is a leaf (not an object), and under a non-empty prefix every name starts with it |
| ReliquaryApi.FlattenParts | src/assets/dist/js/reliquary-api.js:315-317 | the parts of an object's properties, each under its own bracketed name, concatenate into leaves under the object's prefix |
| ReliquaryApi.ArrayAsObject | src/assets/dist/js/reliquary-api.js:310-317 | `typeof` never says `'array'`, so an array flattens as the object of its index keys |
| ReliquaryApi.FlatObject | src/assets/dist/js/reliquary-api.js:307-325 | an object whose values are all primitive flattens to its own properties, as `createQueryStringFromData` would send them |
| ReliquaryApi.EncodeObject | src/assets/dist/js/reliquary-api.js:307-325 | the recursive loop builds exactly the flattened fields of the value |
| ReliquaryApi.KeyIndex | src/assets/dist/js/reliquary-api.js:357 | the position of the first property with the key, and no earlier property has it |
| ReliquaryApi.LookupAt | src/assets/dist/js/reliquary-api.js:357-363 | in an object with distinct keys each property is found at its own place |
| ReliquaryApi.StepsCons | src/assets/dist/js/reliquary-api.js:352-365 | the parse of several segments is the parse of the rest after the first segment's step |
| ReliquaryApi.GetAllParametersFromQuery | src/assets/dist/js/reliquary-api.js:349-367 | the loop over the `&` segments gives the specified parse: blanks skipped, first value stored, second pairs, later ones appended, a broken escape throws |
| ReliquaryApi.StepKeyed | src/assets/dist/js/reliquary-api.js:353-364 | one segment keeps the object's keys distinct and clear of inherited names |
| ReliquaryApi.StepsKeyed | src/assets/dist/js/reliquary-api.js:352-365 | a whole query keeps the object's keys distinct and clear of inherited names |
| ReliquaryApi.TextProps | src/assets/dist/js/reliquary-api.js:357-358 | a field read back from a query is its name (decoded only where keys are decoded) with the text of its value |
| ReliquaryApi.EncodedHasNoSeparators | src/assets/dist/js/reliquary-api.js:167 | an encoded component never holds `&` or `=` (also line 337) |
| ReliquaryApi.FieldTextSplits | src/assets/dist/js/reliquary-api.js:337-356 | an element splits at `=` into exactly its encoded name and encoded value |
| ReliquaryApi.StepField | src/assets/dist/js/reliquary-api.js:357-358 | a field whose name is new is appended with its decoded value |
| ReliquaryApi.StepsFields | src/assets/dist/js/reliquary-api.js:352-365 | fields with new, distinct names parse as those fields appended in order |
| ReliquaryApi.ParseSerialized | src/assets/dist/js/reliquary-api.js:334-367 | a serialized set of readable fields parses back as those fields, names and texts, in order |
| ReliquaryApi.EncodeInjective | src/assets/dist/js/reliquary-api.js:167 | different names encode differently (also line 337) |
| ReliquaryApi.PlainEncode | src/assets/dist/js/reliquary-api.js:167 | a name of unreserved characters encodes as itself |
| ReliquaryApi.UnescapedEncode | src/assets/dist/js/reliquary-api.js:167 | a name whose encoding has no `%` is its own encoding |
| ReliquaryApi.EncodedInherited | src/assets/dist/js/reliquary-api.js:357 | an encoded name that is an inherited property name was that name already |
| ReliquaryApi.PropsReadable | src/assets/dist/js/reliquary-api.js:146 | an object read from a query can be written back and read again without clashes (also lines 349-367) |
| ReliquaryApi.RewriteKeepsQuery | src/assets/dist/js/reliquary-api.js:146 | with names decoded, reading a query and writing it back gives the same fields (also lines 349-367) |
| ReliquaryApi.KeysEncodedTwice | src/assets/dist/js/reliquary-api.js:146 | as written the names are not decoded, so `a%20b=1` is read under `a%20b` and written back as `a%2520b=1` (also lines 357-358) |
| ReliquaryApi.AssignLookup | src/assets/dist/js/reliquary-api.js:142 | after `data[key] = value` the key gives the value, other properties stay, nothing else is added and keys stay distinct |
| ReliquaryApi.Remove | src/assets/dist/js/reliquary-api.js:144 | `delete data[key]` leaves exactly the properties with other keys |
| ReliquaryApi.SearchOf | src/assets/dist/js/reliquary-api.js:147-149 | the query read back from the search written is the query itself |
| ReliquaryApi.AssignKeyed | src/assets/dist/js/reliquary-api.js:142 | storing under a non-inherited name keeps the keys distinct and clear |
| ReliquaryApi.StoredFoundAgain | src/assets/dist/js/reliquary-api.js:139-146 | a string stored under a plain name is found under it when the query is read again |
| ReliquaryApi.SetStores | src/assets/dist/js/reliquary-api.js:138-149 | for a truthy, encodable object the new search is the query with the encoded parameters assigned under the key |
| ReliquaryApi.SearchParamsThroughUrl | src/assets/dist/js/reliquary-api.js:122-156 | search parameters set into the URL are read back from it as the parse of their JSON text |
| ReliquaryApi.ActionUrlCarriesData | src/assets/dist/js/reliquary-api.js:225-236 | the action URL starts with the route; a GET request with data appends its flattened fields, which read back as those fields; other requests append nothing |
| JsValues.JoinWith | src/assets/dist/js/reliquary-api.js:169 | joining no parts gives the empty string |
| JsValues.Find | src/assets/dist/js/reliquary-api.js:350-356 | the first occurrence of the separator, none before it |
| JsValues.Split | src/assets/dist/js/reliquary-api.js:350-356 | `split` gives at least one piece and no piece holds the separator |
| JsValues.SplitJoin | src/assets/dist/js/reliquary-api.js:169 | splitting a join on a separator no piece holds gives the pieces back (also line 350) |
| JsValues.ToTextPrimitive | src/assets/dist/js/reliquary-api.js:167 | `String` of a string is the string, of a number its decimal digits (also line 337) |
| JsValues.EscapeChar | src/assets/dist/js/reliquary-api.js:182 | inside a JSON string a character is escaped exactly when it is a control character, a quote or a backslash, and is kept otherwise |
| JsValues.Stringify | src/assets/dist/js/reliquary-api.js:182 | `JSON.stringify` gives `undefined` exactly for `undefined` and functions |
| JsValues.QuoteInjective | src/assets/dist/js/reliquary-api.js:182 | a JSON string, followed by anything, determines the text it quotes and what follows |
| Base64.CharValue | src/assets/dist/js/reliquary-api.js:182-197 | the base 64 alphabet and its values agree both ways |
| Base64.Encode | src/assets/dist/js/reliquary-api.js:182 | the encoding is padded to a multiple of four characters |
| Base64.Btoa | src/assets/dist/js/reliquary-api.js:182 | `btoa` succeeds exactly on Latin-1 text |
| Base64.CutEncode | src/assets/dist/js/reliquary-api.js:183-185 | cutting `btoa`'s output at its first `=` leaves the encoding without its padding |
| Base64.Split | src/assets/dist/js/reliquary-api.js:182 | three bytes give four six-bit values, a last single byte two and a last pair three |
| Base64.DecodeEncode | src/assets/dist/js/reliquary-api.js:197 | the padded encoding decodes back to its bytes too |
| Base64.JoinSplit | src/assets/dist/js/reliquary-api.js:197 | the six-bit values of some bytes join back into those bytes |
| Base64.DecodeUnpadded | src/assets/dist/js/reliquary-api.js:197 | the forgiving `atob` reads an unpadded encoding back as its bytes |
| Base64.AtobBtoa | src/assets/dist/js/reliquary-api.js:182-197 | `atob` of a `btoa` result cut at its first `=` gives the text back |
| Base64.UnpaddedHasNoPadding | src/assets/dist/js/reliquary-api.js:183-185 | the cut output never holds a `=` |
| Utf8.EncodeChar | src/assets/dist/js/reliquary-api.js:167 | a code point takes one to four bytes, the leading byte announces the length, the rest are continuation bytes, and one byte exactly for seven-bit characters (also line 358) |
| Utf8.DecodeEncodeChar | src/assets/dist/js/reliquary-api.js:358 | the bytes of one code point decode as that code point |
| Utf8.DecodeEncode | src/assets/dist/js/reliquary-api.js:358 | decoding the UTF-8 bytes of a text gives the text back |
| Utf8.AsciiBytes | src/assets/dist/js/reliquary-api.js:182 | a text is seven-bit exactly when its UTF-8 bytes are its own character codes |
| UriComponent.EncodeSafe | src/assets/dist/js/reliquary-api.js:167 | `encodeURIComponent` leaves only unreserved characters and `%` escapes (also line 337) |
| UriComponent.EscapedBytesOf | src/assets/dist/js/reliquary-api.js:358 | escapes of some bytes read back as those bytes |
| UriComponent.DecodeEncodeChar | src/assets/dist/js/reliquary-api.js:358 | decoding one encoded character gives it back ahead of the rest |
| UriComponent.DecodeEncode | src/assets/dist/js/reliquary-api.js:167 | `decodeURIComponent(encodeURIComponent(s)) == s` (also line 358) |
| ApiCache.Int32 | src/assets/dist/js/reliquary-api-cache.js:46 | `<< 0` gives the 32-bit two's complement value congruent to its operand modulo 2^32 |
| ApiCache.CharUnits | src/assets/dist/js/reliquary-api-cache.js:44-46 | `charCodeAt` sees one UTF-16 unit below U+10000 and two (a surrogate pair) above, each below 0x10000 |
| ApiCache.Units | src/assets/dist/js/reliquary-api-cache.js:44-46 | the units `charCodeAt` reads are each below 0x10000, at least one per character, and exactly the code points when no character lies beyond the Basic Multilingual Plane |
| ApiCache.HashStepIs31 | src/assets/dist/js/reliquary-api-cache.js:46 | one turn `((hash << 5) - hash + unit) << 0` is 31·hash + unit reduced to 32 bits |
| ApiCache.HashIsPoly | src/assets/dist/js/reliquary-api-cache.js:41-49 | the hash the loop leaves is the 32-bit value of the polynomial Σ unitᵢ·31^(n−1−i), starting from 0 |
| ApiCache.HashString | src/assets/dist/js/reliquary-api-cache.js:41-49 | the `while` loop returns `reliquary.cache.request` followed by the decimal hash of the text's UTF-16 units |
| ApiCache.CallIgnoredInKey | src/assets/dist/js/reliquary-api-cache.js:131 | as written, two different API functions with the same parameters and expiration get the same cache key |
| ApiCache.NamedRequestTextDistinct | src/assets/dist/js/reliquary-api-cache.js:130-131 | the corrected request text (call name, parameters, expiration as a JSON array) differs for differently named calls |
| ApiCache.IndexOfText | src/assets/dist/js/reliquary-api-cache.js:239 | `indexOf` gives a position where the searched text occurs, or the length for −1 |
| ApiCache.MarkedText | src/assets/dist/js/reliquary-api-cache.js:51-70 | a stored text `$$obj$$` + JSON without a second marker is read back by parsing the JSON |
| ApiCache.ReadBackObject | src/assets/dist/js/reliquary-api-cache.js:51-70 | an object answer stored as marker + JSON is read back as `JSON.parse` of that JSON (when the JSON holds no marker) (also lines 89-95) |
| ApiCache.ReadBackText | src/assets/dist/js/reliquary-api-cache.js:51-70 | any other answer is read back as the string `String(answer)` (when it holds no marker) (also lines 89-95) |
| ApiCache.MarkedStringParsed | src/assets/dist/js/reliquary-api-cache.js:55-57 | a string answer beginning with the marker, such as `$$obj$$1`, is parsed on read-back instead of kept as a string |
| ApiCache.NumberTextOfInt | src/assets/dist/js/reliquary-api-cache.js:79 | an expiration time written as its decimal text compares as that same number (also line 155) |
| ApiCache.EntryKeys | src/assets/dist/js/reliquary-api-cache.js:48 | a hashed key and its `_expiration` key both hold `reliquary.cache`, and splitting the expiration key at `_expiration` gives the data key back (also lines 79, 239, 255, 261) |
| ApiCache.CacheKeys | src/assets/dist/js/reliquary-api-cache.js:237-244 | the keys `clearCache` removes are exactly the stored keys holding `reliquary.cache` |
| ApiCache.Swept | src/assets/dist/js/reliquary-api-cache.js:250-266 | once some keys are visited, the removed keys are exactly the stale `_expiration` keys among them and their data keys |
| ApiCache.UnvisitedStale | src/assets/dist/js/reliquary-api-cache.js:251-258 | removals made earlier in the loop never change whether a key not yet visited is stale |
| ApiCache.SweepIdempotent | src/assets/dist/js/reliquary-api-cache.js:250-266 | running `clearExpiredCache` twice at the same time leaves what one run leaves |
| ApiCache.SweptEntryGone | src/assets/dist/js/reliquary-api-cache.js:255-262 | a stale entry written by `run` loses both its data key and its expiration key |
| ApiCache.FreshEntryKept | src/assets/dist/js/reliquary-api-cache.js:257-258 | an entry's expiration key whose time is not before now survives with its value |
| ApiCache.ExpirationKeySurvives | src/assets/dist/js/reliquary-api-cache.js:111-114 | as written, `removeLocalStorage` removes the data key but leaves the `_expiration` key and its time |
| ApiCache.WithoutEntry | src/assets/dist/js/reliquary-api-cache.js:106-114 | the corrected removal drops the data key and the `_expiration` key and keeps every other key and value |
| ApiCache.ExpiredAfter | src/assets/dist/js/reliquary-api-cache.js:79 | with a time written by the cache, an entry counts as expired exactly when now is past that time (also line 155) |
| ApiCache.CallStores | src/assets/dist/js/reliquary-api-cache.js:76-99 | when both writes fit, a fulfilled call leaves the stored answer under the key and its expiration time under the `_expiration` key |
| ApiCache.CallUnstored | src/assets/dist/js/reliquary-api-cache.js:94-98 | when the answer does not fit, the expiration key written before it is gone again |
| ApiCache.RunPools | src/assets/dist/js/reliquary-api-cache.js:164-189 | every promise `run` returns on usable storage is left in the request pool under the request's key |
| ApiCache.PooledAnswer | src/assets/dist/js/reliquary-api-cache.js:155-169 | with an unexpired entry, a pooled promise is returned as it is, the API is not called and only the storage test key is touched |
| ApiCache.SecondRunPooled | src/assets/dist/js/reliquary-api-cache.js:125-190 | two runs of the same request before it expires return the same promise, and the second does not call the API |
| ApiCache.ExpiredRefetched | src/assets/dist/js/reliquary-api-cache.js:155-184 | an expired entry is taken neither from the pool nor from storage: the API is called and its promise returned |
| ApiCache.StoredServed | src/assets/dist/js/reliquary-api-cache.js:173-178 | with an empty pool, unexpired non-empty stored data is returned through `getLocalData` without calling the API (or its parse error thrown) |
| ApiCache.RunTouchesOnlyCache | src/assets/dist/js/reliquary-api-cache.js:125-190 | `run` adds, changes or removes no storage key other than keys holding `reliquary.cache` and `localStorageTest` |
| ApiCache.CacheStore.RunAPICall | src/assets/dist/js/reliquary-api-cache.js:72-104 | the storage after the call has settled is `AfterCall`: expiration first, then the answer, the expiration removed again if the answer does not fit |
| ApiCache.CacheStore.RemoveLocalStorage | src/assets/dist/js/reliquary-api-cache.js:111-114 | as written: removes the key and the key + `__expiration` |
| ApiCache.CacheStore.RemoveEntry | src/assets/dist/js/reliquary-api-cache.js:106-114 | corrected: the key and its `_expiration` key are gone afterwards |
| ApiCache.CacheStore.Run | src/assets/dist/js/reliquary-api-cache.js:125-190 | the returned promise (or thrown parse error), whether the API was called, and the new storage and pool are those of `RunSpec` (corrected, see Findings) |
| ApiCache.CacheStore.Fetch | src/assets/dist/js/reliquary-api-cache.js:163-189 | after the expiry check: the pooled promise, else the stored data, else a fresh call, recorded in the pool (`Lookup`) |
| ApiCache.CacheStore.ClearKey | src/assets/dist/js/reliquary-api-cache.js:239-242 | one key holding `reliquary.cache` is removed and any other key kept |
| ApiCache.CacheStore.ClearCache | src/assets/dist/js/reliquary-api-cache.js:237-244 | the storage afterwards is the old storage without exactly the keys holding `reliquary.cache`; the pool is unchanged |
| ApiCache.CacheStore.SweepKey | src/assets/dist/js/reliquary-api-cache.js:252-263 | one visited key that is a stale cache expiration key is removed together with its data key; any other key changes nothing |
| ApiCache.CacheStore.ClearExpiredCache | src/assets/dist/js/reliquary-api-cache.js:250-266 | the storage afterwards is the old storage without its stale expiration keys and their data keys (`SweepExpired`) |
| SearchGroupModels.SearchGroupModel.constructor | src/models/SearchGroup.php:19-77 | a new group model holds its record's values and no override of filters or elements |
| SearchGroupModels.SearchGroupModel.GetFilters | src/models/SearchGroup.php:102-109 | an override, when set, is returned as is without touching the repository; otherwise an unsaved group has no filters and a saved one gets its group's filter set from the repository, which is then filed |
| SearchGroupModels.SearchGroupModel.OverrideFilters | src/models/SearchGroup.php:116-119 | the override is replaced, `null` clearing it |
| SearchGroupModels.SearchGroupModel.GetSearchElements | src/models/SearchGroup.php:124-131 | an override, when set, is returned as is; otherwise an unsaved group has no elements and a saved one gets its group's element set from the repository |
| SearchGroupModels.SearchGroupModel.OverrideSearchElements | src/models/SearchGroup.php:138-141 | the override is replaced, `null` clearing it |
| ModelRules.Lower | src/models/SearchGroup.php:86 | lower-casing keeps the length and lowers letter by letter |
| ModelRules.AddError | src/models/SearchGroupFilter.php:100 | `addError` gives the attribute an error and leaves every other attribute's errors alone |
| ModelRules.ValidateOnlyOneTarget | src/models/SearchGroupFilter.php:94-103 | the validator adds nothing exactly when `fieldId` or `attribute` already has errors or exactly one of them is set; otherwise it adds an error to the attribute it runs on |
| ModelRules.RunRuleKeeps | src/models/SearchGroupFilter.php:63-73 | running a rule never takes an error away |
| ModelRules.RunRulesKeeps | src/models/SearchGroupFilter.php:63-73 | running the rules never takes an error away |
| ModelRules.RunOnClean | src/models/SearchGroupFilter.php:63-73 | on an error-free model a rule adds an error to an attribute exactly when its check fails there |
| ModelRules.RunRuleClean | src/models/SearchGroupFilter.php:63-73 | on an error-free model a rule leaves no error exactly when its check passes on each of its attributes |
| ModelRules.PassesIff | src/models/SearchGroupFilter.php:63-73 | `validate()` passes exactly when every rule passes on each of its attributes |
| ModelRules.OnlyOneTargetSkipping | src/models/SearchGroupFilter.php:69 | the inline rule, skipped on empty values, passes exactly when exactly one target is set or none is |
| ModelRules.OnlyOneTargetAlways | src/models/SearchGroupFilter.php:69 | the inline rule run on empty values too passes exactly when exactly one target is set |
| ModelRules.SearchGroupPasses | src/models/SearchGroup.php:79-89 | a search group validates exactly when its ids and sizes are integers, the required attributes are filled, the texts fit 255 (template 1023), the handle is handle-shaped and not reserved, and no other group has it |
| ModelRules.SearchGroupRulesOk | src/models/SearchGroup.php:79-89 | the six group rules pass exactly when the group is valid as `SearchGroupValid` says |
| ModelRules.GroupRule0 | src/models/SearchGroup.php:82 | id, siteId, pageSize and sortOrder must be integers when set |
| ModelRules.GroupRule1 | src/models/SearchGroup.php:83 | siteId, handle, name, template, pageSize and searchOrder are required |
| ModelRules.GroupRule2 | src/models/SearchGroup.php:84 | handle, name and searchOrder are strings of at most 255 characters |
| ModelRules.GroupRule3 | src/models/SearchGroup.php:85 | template is a string of at most 1023 characters |
| ModelRules.GroupRule4 | src/models/SearchGroup.php:86 | the handle is handle-shaped and not a reserved word, whatever its case |
| ModelRules.GroupRule5 | src/models/SearchGroup.php:87 | no other group has the handle |
| ModelRules.FilterFieldRules | src/models/SearchGroupFilter.php:63-73 | the filter rules other than the target rule pass exactly when the filter's fields are valid |
| ModelRules.FilterRule0 | src/models/SearchGroupFilter.php:66 | id, groupId, fieldId and sortOrder must be integers when set |
| ModelRules.FilterRule1 | src/models/SearchGroupFilter.php:67 | groupId and name are required |
| ModelRules.FilterRule2 | src/models/SearchGroupFilter.php:68 | handle and name are strings of at most 255 characters |
| ModelRules.FilterRule4 | src/models/SearchGroupFilter.php:70 | the handle is handle-shaped and not a reserved word |
| ModelRules.FilterRule5 | src/models/SearchGroupFilter.php:71 | no other filter has the same handle, field and attribute |
| ModelRules.SearchGroupFilterPassesAsWritten | src/models/SearchGroupFilter.php:63-103 | as written, a filter validates when its fields are valid and exactly one target is set, or when no target is set at all |
| ModelRules.NoTargetPassesAsWritten | src/models/SearchGroupFilter.php:69-99 | a filter with a group and a name but neither a field nor an attribute validates as written |
| ModelRules.SearchGroupFilterPasses | src/models/SearchGroupFilter.php:63-103 | with the target rule run on empty values, a filter validates exactly when its fields are valid and exactly one target is set |
| ModelRules.WeightFieldRules | src/models/CustomFieldWeight.php:48-57 | the weight rules other than the target rule pass exactly when the weight's fields are valid |
| ModelRules.CustomFieldWeightPassesAsWritten | src/models/CustomFieldWeight.php:48-71 | as written, a weight validates when its fields are valid and exactly one target is set, or when no target is set at all |
| ModelRules.NoWeightTargetPassesAsWritten | src/models/CustomFieldWeight.php:55-67 | a weight with an element type and a multiplier but no target validates as written |
| ModelRules.CustomFieldWeightPasses | src/models/CustomFieldWeight.php:48-71 | with the target rule run on empty values, a weight validates exactly when its fields are valid and exactly one target is set |
| PhpValues.List | src/services/Search.php:202-205 | a PHP list keys its items 0, 1, 2, … in order |
| PhpValues.Items | src/adapters/FilterQueries.php:227 | `foreach` visits an array's values in order |
| PhpValues.At | src/adapters/FilterQueries.php:425-437 | reading a key gives the value stored under it, and null when the key is absent |
| PhpValues.TrimSpace | src/models/SearchGroup.php:83 | the trimmed text starts and ends with a non-space and is no longer |
| PhpValues.NatText | src/adapters/FilterQueries.php:167 | a number prints as one or more digits, one digit exactly below 10 |
| PhpValues.NatTextInjective | src/adapters/FilterQueries.php:167 | different numbers print differently |
| PhpValues.IntTextSign | src/adapters/FilterQueries.php:167 | a printed integer starts with a minus exactly when it is negative |
| PhpValues.IntTextInjective | src/adapters/FilterQueries.php:167 | different integers print differently |
| PhpValues.NatTextValue | src/adapters/FieldOptions.php:172 | the digits a number prints read back as that number |
| PhpValues.IntValOfText | src/adapters/FieldOptions.php:172 | `intval` of a printed integer is that integer |
| PluginEvents.DiscardedClasses | src/Reliquary.php:96-99 | the index is discarded exactly for Matrix blocks and Super Table blocks, never for entries (also lines 312-314) |
| PluginEvents.JobQueue.constructor | src/Reliquary.php:222 | the job queue starts empty |
| PluginEvents.JobQueue.Push | src/Reliquary.php:222-225 | pushing appends the job at the end |
| PluginEvents.SaveJobs | src/Reliquary.php:214-227 | a save queues at most one job, none exactly for discarded classes, for the element's id and site |
| PluginEvents.QueueBeforeSave | src/Reliquary.php:202-212 | before a save, an element with an id loses its pending index values on its site; a new element leaves the queue alone |
| PluginEvents.BeforeSaveElement | src/Reliquary.php:202-212 | the handler leaves the queue as `QueueBeforeSave` says |
| PluginEvents.AfterSaveElement | src/Reliquary.php:214-227 | the handler appends the jobs `SaveJobs` says |
| PluginEvents.AfterDeleteElement | src/Reliquary.php:192-199 | after a delete, the element's index rows and their postings are gone on every site and everything else is unchanged |
| PluginEvents.RunJob | src/jobs/ProcessIndexes.php:24-27 | the job reindexes its element on its site and clears that element's queue there; a job without an element changes nothing |
| PluginEvents.Param | src/Reliquary.php:150-170 | reading a parameter of anything but an array gives null |
| PluginEvents.BeforeUtilityAction | src/Reliquary.php:138-155 | the rebuild action without parameters fails as a bad request; with a non-empty `start` it empties the index tables; anything else leaves them alone |
| PluginEvents.ReindexSitesSound | src/Reliquary.php:157-190 | a rebuild call reindexes nothing without an id or for a discarded class; a localized class is reindexed on every site, any other on the primary site |
| PluginEvents.ClearedSitesSpec | src/Reliquary.php:185-187 | reindexing on some sites clears exactly the element's queue rows on those sites |
| PluginEvents.ProcessSites | src/Reliquary.php:185-187 | the loop over the sites reindexes the element on each, leaving the queue as `ClearedSites` says |
| PluginEvents.AfterUtilityAction | src/Reliquary.php:157-190 | the handler fails as `ReindexSites` says and changes nothing, or reindexes the element on the sites it gives |

## Left out

- Unicode and intl internals (`strip_tags`, `html_entity_decode`, NFKC with lower-casing, the Unicode general categories): foreign library code, taken as parameters of `Ngram.TextLib`.
- SQL scoring and ordering in `doSearch` (`MATCH … AGAINST`, the `minimumScore` comparison, the `searchOrder` ORDER BY switch, the union of per-type queries): database behaviour, so the page rows and the total arrive as inputs.
- Dialect-specific SQL in `processElementIndex`: only its effect on the tables is modelled, with MySQL's rule that the last insert id of a batch insert is the id of its first row.
- The service bodies of `clearPendingIndexQueue`, `deleteIndexDataForElement` and `clearIndexTables` are not part of this model (src/services/Search.php does not define them). They are modelled with the effect their call sites and the table schema imply. `explainSearch` is not part of this model either.
- The map filter's distance geometry (`floatval`, `ST_Distance_Sphere`): floating point and a database function. Only the presence and numeric checks of lat, lon and rad are modelled.
- The attribute filter handlers (src/adapters/FilterQueries.php:466-489) have empty bodies and never mark an event handled; they have no member, and an attribute filter reaches `doSearch` as unhandled unless another handler answers, where the message of the missing-handler exception then fails on the absent field.
- `getGroupsBySite` (src/services/SearchGroups.php:117-123): a one-line forwarding to `getGroupsBySiteId` with the site's id.
- Aliasing of PHP objects: models are values, so `reorderGroups` re-sorts the cached site sets by the sort orders the cached models hold, and a cached model never changes because the caller changed its own copy.
- The outcomes of `validate()`, of other plugins' event handlers and of element loading are parameters.
- Controllers, framework forwarding (`CraftSearchWrapper`, the queries the element-type query builders build and the loaders; whether a builder exists for a type is modelled, as `SearchDb.extendTypes`), and the DOM and jQuery UI code: request plumbing and framework calls.
- The `queryTime` field of the search result: a clock reading.
- The request and the promises of `callAction`, `getAllOptionsByFilter`, `setSearchParamsToUrl` (history calls), `primeCache`, `parseXMLHttpRequestJson`, `parseXMLHttpRequestHtml` and `convertFormData`: browser I/O. A settled call is an input, and its `then` callbacks run at once instead of later, so no interleaving of requests is modelled.
- `JSON.parse` is a parameter. JavaScript numbers are integers here, and `ToNumber` of a stored text is defined only for integer text.
- Object properties are visited in the order they are listed; JavaScript's rule that integer-like keys come first is not modelled.
- Lone surrogates in strings are not modelled: every character is a Unicode scalar value. On the PHP side this also leaves out byte strings that are not valid UTF-8, for which `preg_replace` with the `u` modifier (src/helpers/Search.php:75) returns null and the value yields no grams.
- A stored expiration time that is not integer text counts as not expired.
- Collisions of `hashString` are not ruled out: different requests may share a key, as in the source.
- Whether localStorage accepts a write is a parameter (`fits`), and whether the cache is enabled is a field.
- ApiCache.CacheStore.Run: keys requests by the text the source writes, in which the API call does not appear (see Findings), and treats a pooled slot set to `null` as an absent slot.
- `getAllParametersFromQuery` looks keys up among own properties; names a plain object inherits (`constructor`, `toString`, `__proto__` and the like) are modelled only as the `TypeError` the first occurrence of such a key raises, because reading the inherited name already gives a value that is not an array.
- ProcessElementIndex: reads the element's own pending rows (`PendingSpec`), the corrected lookup of the first Findings row; the written query, which reads every pending row of the site, is modelled only by `PendingAsWrittenTakesOtherElements`.
- GetFieldOptions: reports a number field's range with `min` from the field's minimum and `max` from its maximum (`GetNumberOptions`); the swapped range as written is modelled only by `NumberRangeSwappedAsWritten`.
- Run: removes an expired entry with both of its keys (`RemoveEntry`), the corrected removal; as written the `_expiration` key survives the removal, and when the next write of it is refused the source keeps the stale time where the model has none. `ExpirationKeySurvives` models the written removal.
- RunSpec: the same corrected removal as `Run`.
- ApplyOptions: dispatches a lightswitch filter to its handler (`FieldHandling`), the corrected binding; as written the handler call fails on the invalid callback `filterLigthswitchQuery`, which the model gives as `FilterHandlerFailed(InvalidCallback("filterLigthswitchQuery"))`, as `ModifyFieldFilterQueryAsWritten` shows, so every lightswitch filter ends the search with that error.
- FieldHandling: binds the lightswitch class to `filterLightswitchQuery`, the corrected binding; `ModifyFieldFilterQueryAsWritten` is the written one.
- DoSearch: the same corrected lightswitch dispatch as `ApplyOptions`.
- FilterOutcome: the same corrected lightswitch dispatch as `ApplyOptions`.
- ModifyFieldFilterQuery: the same corrected lightswitch binding; `ModifyFieldFilterQueryAsWritten` is the written one.
- SaveGroup: drops the old handle entry when the handle changes (`EvictsHandle`), the corrected test; as written it is dropped when the site changes, as `RenameKeepsOldHandleAsWritten` shows.
- SaveValidGroup: the same corrected handle eviction as `SaveGroup`.
- UpdateGroupRecord: the same corrected handle eviction as `SaveGroup`.
- RewriteStoredGroup: the same corrected handle eviction as `SaveGroup`.
- EvictStale: the same corrected handle eviction as `SaveGroup`.
- An expiration given to the request cache as a string: `+` then concatenates and `Math.floor` converts. The cache lemmas take an expiration that is a number or a falsy value.
- Craft's handle validator accepts a handle followed by one trailing newline, because PCRE's `$` matches before it; `HandleText` rejects it.
- The unique-handle rules of `SearchGroup` and `SearchGroupFilter` compare handles exactly, while the database's default collation compares them without case.
- A manual reindex request whose `type` is not a string: the model raises a `TypeError` where PHP would convert the value to a string first.

## Findings

| source | as written | input that shows it | evidently intended | confidence | as-written member | corrected member |
|---|---|---|---|---|---|---|
| src/helpers/Search.php:101-102 | the second `where` replaces the first, so the queue lookup drops the element condition and reads every pending row of the site | elements 1 and 2 queue values for field 7 on site 1, element 2 last: the pass for element 1 takes element 2's value | only the element's own pending rows | not executed | IndexWriter.PendingAsWrittenTakesOtherElements | IndexWriter.PendingSpec |
| src/services/SearchGroups.php:238 | the handle cache is cleared when the site id changes, not when the handle changes | a cached group renamed from handle "a" to "b" on the same site: `getGroupByHandle("a")` still finds it | evict the old handle exactly when the handle changes | not executed | SearchGroupsService.RenameKeepsOldHandleAsWritten | SearchGroupsService.EvictsHandleIffRenamed |
| src/services/SearchGroups.php:311-316 | `deleteGroupById` passes the lookup's `null` into `deleteGroup(SearchGroup $group)` | an id with no group: a `TypeError` instead of `false` | return `false` for an unknown id, as `deleteGroup` does for `null` | not executed | SearchGroupsService.SearchGroups.DeleteGroupByIdAsWritten | SearchGroupsService.SearchGroups.DeleteGroupById |
| src/models/SearchGroupFilter.php:69 | the inline validator is skipped when both targets are empty | a filter with neither `fieldId` nor `attribute` validates | exactly one target | not executed | ModelRules.NoTargetPassesAsWritten | ModelRules.SearchGroupFilterPasses |
| src/models/CustomFieldWeight.php:55 | the inline validator is skipped when both targets are empty | a weight with neither `fieldId` nor `attribute` validates | exactly one target | not executed | ModelRules.NoWeightTargetPassesAsWritten | ModelRules.CustomFieldWeightPasses |
| src/adapters/FilterQueries.php:80 | the lightswitch filter is bound to the misspelled `filterLigthswitchQuery` | any lightswitch filter: the event hands the missing method to the callback call, which fails as an invalid callback (`FilterHandlerFailed(InvalidCallback("filterLigthswitchQuery"))`) before the unhandled-event check is reached | dispatch to `filterLightswitchQuery` | not executed | FilterQueries.ModifyFieldFilterQueryAsWritten | FilterQueries.ModifyFieldFilterQuery |
| src/adapters/FieldOptions.php:337-338 | `min` is the field's maximum and `max` its minimum | a number field with min 1 and max 10 gives min 10, max 1 | `min` from the field's minimum, `max` from its maximum | not executed | FieldOptions.NumberRangeSwappedAsWritten | FieldOptions.GetNumberOptions |
| src/assets/dist/js/reliquary-api.js:182 | `btoa` of the JSON throws on any character above U+00FF | `{q: "€"}` | encode the JSON's UTF-8 bytes, so every search round-trips | not executed | ReliquaryApi.WideSearchThrows | ReliquaryApi.DecodeEncodeSearchParamsUtf8 |
| src/assets/dist/js/reliquary-api.js:357-358 | keys are stored without decoding, so writing the parameters back encodes them twice | `a%20b=1` becomes `a%2520b=1` | decode the key as the value is decoded | not executed | ReliquaryApi.KeysEncodedTwice | ReliquaryApi.RewriteKeepsQuery |
| src/assets/dist/js/reliquary-api-cache.js:131 | the request key is `JSON.stringify(arguments)`, which leaves the API function out | two different API calls with the same parameters share one entry | the call's identity is part of the key | not executed | ApiCache.CallIgnoredInKey | ApiCache.NamedRequestTextDistinct |
| src/assets/dist/js/reliquary-api-cache.js:113 | the entry is removed with `hash + '__expiration'`, a key nothing writes | removing an entry leaves its `_expiration` key behind | remove `hash + '_expiration'` | not executed | ApiCache.ExpirationKeySurvives | ApiCache.CacheStore.RemoveEntry |
