/**
 * The shape every repository getter shares: take the ids of the models a
 * set already caches, fetch the table's other rows that belong in the set
 * (`['not in', 'id', $ids]`), add each to the set under its id, then
 * finalize and sort the set. These lemmas hold for any table and set.
 */
module CacheFill {
  import opened Optional
  import opened Records
  import opened MultiCaches

  /** The query's condition: rows that belong in the set and whose id is not cached yet. */
  function Missing<T>(belongs: T -> bool, ids: seq<int>, idOf: T -> int): T -> bool
  {
    (x: T) => belongs(x) && idOf(x) !in ids
  }

  /** Each entry of a set is filed under its model's id. */
  ghost predicate KeyedById<T>(entries: seq<(int, T)>, idOf: T -> int)
  {
    forall e :: e in entries ==> e.0 == idOf(e.1)
  }

  /**
   * The set under cache key `key`: each entry under its model's id, and
   * every model one that `fileOf` files under `key` (its group, its site).
   */
  ghost predicate FiledSet<T>(entries: seq<(int, T)>, key: int, idOf: T -> int, fileOf: T -> int)
  {
    forall e :: e in entries ==> e.0 == idOf(e.1) && fileOf(e.1) == key
  }

  /** Every slot of a cache of sets is such a set. */
  ghost predicate FiledSets<T>(items: map<int, Slot<T>>, idOf: T -> int, fileOf: T -> int)
  {
    forall g :: g in items ==> items[g].Set? && FiledSet(items[g].entries, g, idOf, fileOf)
  }

  /** The set a slot holds, as `getItems` reads it. */
  function EntriesAt<T>(items: map<int, Slot<T>>, key: int): seq<(int, T)>
  {
    if key in items && items[key].Set? then items[key].entries else []
  }

  /** `addItem($model, $model->id, fileOf($model))` keeps every set filed correctly. */
  lemma AddKeepsFiledSets<T>(items: map<int, Slot<T>>, x: T, idOf: T -> int, fileOf: T -> int)
    requires FiledSets(items, idOf, fileOf) && DistinctKeys(EntriesAt(items, fileOf(x)))
    ensures FiledSets(items[fileOf(x) := Set(Put(EntriesAt(items, fileOf(x)), idOf(x), x))], idOf, fileOf)
  {
    var key := fileOf(x);
    var before := EntriesAt(items, key);
    var after := Put(before, idOf(x), x);
    var filed := items[key := Set(after)];
    assert FiledSet(before, key, idOf, fileOf);
    forall e | e in after ensures e.0 == idOf(e.1) && fileOf(e.1) == key {
      if e != (idOf(x), x) {
        assert e in before;
      }
    }
    forall g | g in filed ensures filed[g].Set? && FiledSet(filed[g].entries, g, idOf, fileOf) {
      if g != key {
        assert filed[g] == items[g];
      }
    }
  }

  /** Replacing a set by a selection or reordering of its entries keeps it filed correctly. */
  lemma ReplaceKeepsFiledSets<T>(items: map<int, Slot<T>>, key: int, entries: seq<(int, T)>, idOf: T -> int, fileOf: T -> int)
    requires FiledSets(items, idOf, fileOf)
    requires forall e :: e in entries ==> e in EntriesAt(items, key)
    ensures FiledSets(items[key := Set(entries)], idOf, fileOf)
  {
    var filed := items[key := Set(entries)];
    assert FiledSet(EntriesAt(items, key), key, idOf, fileOf);
    forall g | g in filed ensures filed[g].Set? && FiledSet(filed[g].entries, g, idOf, fileOf) {
      if g != key {
        assert filed[g] == items[g];
      }
    }
  }

  // ---------------------------------------------------------------------
  // What a save does to the sets

  /**
   * The sets of a keyed cache after a model with id `id` was saved into
   * set `to`, having been filed under set `from` before (the same set when
   * it did not move): the set it left loses exactly its entry, a new model
   * is put into its set, that set otherwise keeps its entries up to order,
   * and every other set is untouched. A model that moved is not put into
   * the set it moved to.
   */
  ghost predicate SavedSets<T>(before: map<int, Slot<T>>, after: map<int, Slot<T>>, id: int, x: T,
                                   isNew: bool, from: int, to: int)
  {
    && (forall k :: k != from && k != to ==> EntriesAt(after, k) == EntriesAt(before, k))
    && (from != to ==> EntriesAt(after, from) == Remove(EntriesAt(before, from), id))
    && (isNew ==>
          && DistinctKeys(EntriesAt(before, to))
          && multiset(EntriesAt(after, to)) == multiset(Put(EntriesAt(before, to), id, x)))
    && (!isNew ==> multiset(EntriesAt(after, to)) == multiset(EntriesAt(before, to)))
  }

  /** Two caches that differ at most in set `key` agree on every other set. */
  lemma EntriesAtFrame<T>(a: map<int, Slot<T>>, b: map<int, Slot<T>>, key: int)
    requires a - {key} == b - {key}
    ensures forall k :: k != key ==> EntriesAt(a, k) == EntriesAt(b, k)
  {
    forall k | k != key ensures EntriesAt(a, k) == EntriesAt(b, k) {
      assert k in a <==> k in a - {key};
      assert k in b <==> k in b - {key};
      if k in a {
        assert a[k] == (a - {key})[k];
        assert b[k] == (b - {key})[k];
      }
    }
  }

  /**
   * A set only reordered: the other sets as they were, the set the same
   * entries up to order.
   */
  lemma ReorderedSet<T>(before: map<int, Slot<T>>, after: map<int, Slot<T>>, key: int)
    requires after.Keys == before.Keys && after - {key} == before - {key}
    requires key in before ==> before[key].Set? && after[key].Set?
    requires key in before ==> multiset(after[key].entries) == multiset(before[key].entries)
    ensures forall k :: k != key ==> EntriesAt(after, k) == EntriesAt(before, k)
    ensures multiset(EntriesAt(after, key)) == multiset(EntriesAt(before, key))
  {
    EntriesAtFrame(after, before, key);
  }

  /**
   * Putting a new model into its set (or leaving the sets alone for one
   * that is not new), then reordering that set, is a save into that set.
   */
  lemma SavedInPlace<T>(before: map<int, Slot<T>>, put: map<int, Slot<T>>, after: map<int, Slot<T>>,
                            id: int, x: T, isNew: bool, key: int)
    requires isNew ==> DistinctKeys(EntriesAt(before, key))
    requires isNew ==> put == before[key := Set(Put(EntriesAt(before, key), id, x))]
    requires !isNew ==> put == before
    requires after.Keys == put.Keys && after - {key} == put - {key}
    requires key in put ==> put[key].Set? && after[key].Set?
    requires key in put ==> multiset(after[key].entries) == multiset(put[key].entries)
    ensures SavedSets(before, after, id, x, isNew, key, key)
  {
    ReorderedSet(put, after, key);
    if isNew {
      UpdatedEntries(before, key, Put(EntriesAt(before, key), id, x));
    }
  }

  /** Filing `p` under `key` changes the set at `key` and no other. */
  lemma UpdatedEntries<T>(items: map<int, Slot<T>>, key: int, p: seq<(int, T)>)
    ensures EntriesAt(items[key := Set(p)], key) == p
    ensures forall k :: k != key ==> EntriesAt(items[key := Set(p)], k) == EntriesAt(items, k)
  {
  }

  /** `removeItem($id, $key)` takes the model out of the set at `key` and leaves every other set alone. */
  lemma RemovedFromSet<T>(before: map<int, Slot<T>>, left: map<int, Slot<T>>, key: int, id: int)
    requires key !in before ==> left == before
    requires key in before ==> before[key].Set? && left == before[key := Set(Remove(before[key].entries, id))]
    ensures EntriesAt(left, key) == Remove(EntriesAt(before, key), id)
    ensures forall k :: k != key ==> EntriesAt(left, k) == EntriesAt(before, k)
  {
    if key in before {
      UpdatedEntries(before, key, Remove(before[key].entries, id));
    }
  }

  /** Leaving set `from` first, then being saved into set `to` as a model that stays there. */
  lemma SavedSetsAfterLeaving<T>(before: map<int, Slot<T>>, left: map<int, Slot<T>>, after: map<int, Slot<T>>,
                                     id: int, x: T, isNew: bool, from: int, to: int)
    requires from != to ==> EntriesAt(left, from) == Remove(EntriesAt(before, from), id)
    requires forall k :: (k != from || from == to) ==> EntriesAt(left, k) == EntriesAt(before, k)
    requires SavedSets(left, after, id, x, isNew, to, to)
    ensures SavedSets(before, after, id, x, isNew, from, to)
  {
    assert EntriesAt(left, to) == EntriesAt(before, to);
    if from != to {
      assert EntriesAt(after, from) == EntriesAt(left, from);
    }
  }

  /**
   * After caching `records[..i]` into a set that held `cached`: every key
   * of `cached` and of those records is present, and nothing else is.
   */
  ghost predicate Collected<T>(entries: seq<(int, T)>, cached: seq<(int, T)>, records: seq<T>, i: int, idOf: T -> int)
    requires 0 <= i <= |records|
  {
    && (forall id :: HasKey(cached, id) ==> HasKey(entries, id))
    && (forall k :: 0 <= k < i ==> HasKey(entries, idOf(records[k])))
    && (forall e :: e in entries ==> e in cached || e.1 in records[..i])
  }

  lemma CollectedInit<T>(cached: seq<(int, T)>, records: seq<T>, idOf: T -> int)
    ensures Collected(cached, cached, records, 0, idOf)
  {
    assert records[..0] == [];
  }

  /** One `addItem($model, $model->id, ...)` of the loop. */
  lemma CollectStep<T>(before: seq<(int, T)>, cached: seq<(int, T)>, records: seq<T>, i: int, idOf: T -> int)
    requires 0 <= i < |records|
    requires DistinctKeys(before) && Collected(before, cached, records, i, idOf)
    ensures Collected(Put(before, idOf(records[i]), records[i]), cached, records, i + 1, idOf)
  {
    CollectKeys(before, cached, records, i, idOf);
    CollectEntries(before, cached, records, i, idOf);
  }

  /** The keys half of `CollectStep`: no key is lost and the record's key is added. */
  lemma CollectKeys<T>(before: seq<(int, T)>, cached: seq<(int, T)>, records: seq<T>, i: int, idOf: T -> int)
    requires 0 <= i < |records|
    requires DistinctKeys(before) && Collected(before, cached, records, i, idOf)
    ensures var after := Put(before, idOf(records[i]), records[i]);
      && (forall id :: HasKey(cached, id) ==> HasKey(after, id))
      && (forall k :: 0 <= k < i + 1 ==> HasKey(after, idOf(records[k])))
  {
    var record := records[i];
    var after := Put(before, idOf(record), record);
    assert Lookup(after, idOf(record)) == Some(record);
    forall id | HasKey(before, id) ensures HasKey(after, id) {
      if id != idOf(record) {
        assert Lookup(after, id) == Lookup(before, id);
      }
    }
    forall k | 0 <= k < i + 1 ensures HasKey(after, idOf(records[k])) {
      if k < i {
        assert HasKey(before, idOf(records[k]));
      }
    }
  }

  /** The entries half of `CollectStep`: every entry is a cached one or one of the records so far. */
  lemma CollectEntries<T>(before: seq<(int, T)>, cached: seq<(int, T)>, records: seq<T>, i: int, idOf: T -> int)
    requires 0 <= i < |records|
    requires DistinctKeys(before) && Collected(before, cached, records, i, idOf)
    ensures forall e :: e in Put(before, idOf(records[i]), records[i]) ==> e in cached || e.1 in records[..i + 1]
  {
    var record := records[i];
    var after := Put(before, idOf(record), record);
    assert records[..i + 1] == records[..i] + [record];
    forall e | e in after ensures e in cached || e.1 in records[..i + 1] {
      if e != (idOf(record), record) {
        assert e in before;
      }
    }
  }

  /** The query fetches every row that belongs and whose id the set does not hold yet. */
  lemma FetchedRows<T>(table: map<int, T>, bound: int, idOf: T -> int, belongs: T -> bool,
                       cached: seq<(int, T)>, records: seq<T>)
    requires KeyedBelow(table, idOf, bound)
    requires KeyedById(cached, idOf)
    requires records == Select(table, IdsBelow(table, bound), Missing(belongs, ModelIds(cached, idOf), idOf))
    ensures forall id :: id in table && belongs(table[id]) && !HasKey(cached, id) ==> table[id] in records
  {
    var ids := ModelIds(cached, idOf);
    forall id | id in table && belongs(table[id]) && !HasKey(cached, id) ensures table[id] in records {
      assert Missing(belongs, ids, idOf)(table[id]);
    }
  }

  /**
   * Once the fetched rows are cached and the set reordered, it holds every
   * row of the table that belongs in it, and each entry is either one that
   * was cached before or the table's current row under that id.
   */
  lemma FillComplete<T>(table: map<int, T>, bound: int, idOf: T -> int, belongs: T -> bool,
                            cached: seq<(int, T)>, records: seq<T>, filled: seq<(int, T)>, r: seq<(int, T)>)
    requires KeyedBelow(table, idOf, bound)
    requires KeyedById(cached, idOf) && KeyedById(r, idOf)
    requires records == Select(table, IdsBelow(table, bound), Missing(belongs, ModelIds(cached, idOf), idOf))
    requires Collected(filled, cached, records, |records|, idOf)
    requires multiset(r) == multiset(filled)
    ensures forall id :: id in table && belongs(table[id]) ==> HasKey(r, id)
    ensures forall e :: e in r ==> e in cached || (e.0 in table && table[e.0] == e.1)
  {
    var ids := ModelIds(cached, idOf);
    assert records[..|records|] == records;
    forall id | HasKey(filled, id) ensures HasKey(r, id) {
      PermutationKeys(filled, r, id);
    }
    forall id | id in table && belongs(table[id]) ensures HasKey(r, id) {
      var row := table[id];
      if id in ids {
        var k :| 0 <= k < |ids| && ids[k] == id;
        assert cached[k] in cached;
        assert HasKey(cached, id);
      } else {
        assert Missing(belongs, ids, idOf)(row);
        assert row in records;
        var k :| 0 <= k < |records| && records[k] == row;
      }
    }
    forall e | e in r ensures e in cached || (e.0 in table && table[e.0] == e.1) {
      assert e in multiset(r);
      assert e in filled;
      if e !in cached {
        assert e.1 in records;
        assert e.1 in table.Values;
      }
    }
  }
}
