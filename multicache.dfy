/**
 * `MultiCache` (src/helpers/MultiCache.php): a cache of single items or of
 * keyed sets of items, each under a cache key, with a per-key
 * "finalized" flag that says the slot holds everything there is.
 *
 * A PHP array used as a set keeps its entries in insertion order and has
 * one entry per key; it is a sequence of (set key, item) pairs with
 * distinct keys here. `$_cacheState` is an array whose keys are read back
 * in insertion order by `getKeys`, so it is a sequence without repeats.
 */
module MultiCaches {
  import opened Optional

  /** `$cacheKey = -1`: the default, single-set key. */
  const DefaultKey: int := -1

  /** What a cache key holds: one item (`setItem`) or an ordered keyed set (`addItem`). */
  datatype Slot<T> = Single(item: T) | Set(entries: seq<(int, T)>)

  predicate DistinctKeys<T(==)>(entries: seq<(int, T)>)
  {
    forall i, j :: 0 <= i < j < |entries| ==> entries[i].0 != entries[j].0
  }

  predicate HasKey<T(==)>(entries: seq<(int, T)>, setKey: int)
  {
    exists i :: 0 <= i < |entries| && entries[i].0 == setKey
  }

  /** The items of a set, in its order, as a `foreach` over it meets them. */
  function Values<T>(entries: seq<(int, T)>): (r: seq<T>)
    ensures |r| == |entries|
    ensures forall k :: 0 <= k < |r| ==> r[k] == entries[k].1
  {
    seq(|entries|, k requires 0 <= k < |entries| => entries[k].1)
  }

  /** `$set[$setKey]`, or null. */
  function Lookup<T(==)>(entries: seq<(int, T)>, setKey: int): (r: Option<T>)
    ensures r.Some? <==> HasKey(entries, setKey)
    ensures r.Some? ==> exists i :: 0 <= i < |entries| && entries[i] == (setKey, r.value)
  {
    if entries == [] then None
    else if entries[0].0 == setKey then Some(entries[0].1)
    else Lookup(entries[1..], setKey)
  }

  /** Splitting off the first entry of a set. */
  lemma HasKeyCons<T>(entries: seq<(int, T)>, setKey: int)
    requires entries != []
    ensures HasKey(entries, setKey) <==> entries[0].0 == setKey || HasKey(entries[1..], setKey)
  {
    if HasKey(entries, setKey) && entries[0].0 != setKey {
      var i :| 0 <= i < |entries| && entries[i].0 == setKey;
      assert entries[1..][i - 1] == entries[i];
    }
    if HasKey(entries[1..], setKey) {
      var i :| 0 <= i < |entries[1..]| && entries[1..][i].0 == setKey;
      assert entries[i + 1] == entries[1..][i];
    }
  }

  lemma DistinctKeysCons<T>(x: (int, T), rest: seq<(int, T)>)
    ensures DistinctKeys([x] + rest) <==> DistinctKeys(rest) && !HasKey(rest, x.0)
  {
    var s := [x] + rest;
    if DistinctKeys(s) {
      forall i, j | 0 <= i < j < |rest| ensures rest[i].0 != rest[j].0 {
        assert rest[i] == s[i + 1] && rest[j] == s[j + 1];
      }
      forall i | 0 <= i < |rest| ensures rest[i].0 != x.0 {
        assert s[0] == x && s[i + 1] == rest[i];
      }
    }
    if DistinctKeys(rest) && !HasKey(rest, x.0) {
      ConsDistinct(x, rest);
    }
  }

  lemma ConsDistinct<T>(x: (int, T), rest: seq<(int, T)>)
    requires DistinctKeys(rest) && !HasKey(rest, x.0)
    ensures DistinctKeys([x] + rest)
  {
    var s := [x] + rest;
    forall i, j | 0 <= i < j < |s| ensures s[i].0 != s[j].0 {
      assert s[j] == rest[j - 1];
      if i > 0 {
        assert s[i] == rest[i - 1];
      } else {
        assert s[i] == x;
      }
    }
  }

  /** A permutation of a set holds the same set keys. */
  lemma PermutationKeys<T>(a: seq<(int, T)>, b: seq<(int, T)>, setKey: int)
    requires multiset(a) == multiset(b)
    ensures HasKey(a, setKey) <==> HasKey(b, setKey)
  {
    if HasKey(a, setKey) {
      var i :| 0 <= i < |a| && a[i].0 == setKey;
      assert a[i] in multiset(b);
      var j :| 0 <= j < |b| && b[j] == a[i];
    }
    if HasKey(b, setKey) {
      var i :| 0 <= i < |b| && b[i].0 == setKey;
      assert b[i] in multiset(a);
      var j :| 0 <= j < |a| && a[j] == b[i];
    }
  }

  /** Under distinct keys an entry's key does not occur before it. */
  lemma PrefixMissesKey<T>(entries: seq<(int, T)>, i: int)
    requires DistinctKeys(entries) && 0 <= i < |entries|
    ensures !HasKey(entries[..i], entries[i].0)
  {
    forall m | 0 <= m < i ensures entries[..i][m].0 != entries[i].0 {
      assert entries[..i][m] == entries[m];
    }
  }

  /** `$set[$setKey] = $item`: overwrite in place, or append a new entry. */
  function Put<T(==)>(entries: seq<(int, T)>, setKey: int, item: T): (r: seq<(int, T)>)
    requires DistinctKeys(entries)
    ensures DistinctKeys(r)
    ensures Lookup(r, setKey) == Some(item)
    ensures forall k :: k != setKey ==> Lookup(r, k) == Lookup(entries, k)
    ensures HasKey(entries, setKey) ==> |r| == |entries|
    ensures !HasKey(entries, setKey) ==> r == entries + [(setKey, item)]
    ensures forall e :: e in r ==> e == (setKey, item) || e in entries
  {
    if entries == [] then
      DistinctKeysCons((setKey, item), []);
      [(setKey, item)]
    else
      var x := entries[0];
      DistinctKeysCons(x, entries[1..]);
      assert entries == [x] + entries[1..];
      HasKeyCons(entries, setKey);
      if x.0 == setKey then
        DistinctKeysCons((setKey, item), entries[1..]);
        [(setKey, item)] + entries[1..]
      else
        var rest := Put(entries[1..], setKey, item);
        assert Lookup(rest, x.0) == Lookup(entries[1..], x.0);
        DistinctKeysCons(x, rest);
        assert !HasKey(entries, setKey) ==> [x] + rest == entries + [(setKey, item)];
        [x] + rest
  }

  /** `unset($set[$setKey])`: drop that entry, keep the others in order. */
  function Remove<T(==)>(entries: seq<(int, T)>, setKey: int): (r: seq<(int, T)>)
    ensures Lookup(r, setKey) == None
    ensures forall k :: k != setKey ==> Lookup(r, k) == Lookup(entries, k)
    ensures forall e :: e in r ==> e in entries
    ensures !HasKey(entries, setKey) ==> r == entries
    ensures DistinctKeys(entries) ==> DistinctKeys(r)
  {
    if entries == [] then []
    else
      var x := entries[0];
      var rest := Remove(entries[1..], setKey);
      assert entries == [x] + entries[1..];
      HasKeyCons(entries, setKey);
      DistinctKeysCons(x, entries[1..]);
      if x.0 == setKey then rest
      else
        assert Lookup(rest, x.0) == Lookup(entries[1..], x.0);
        DistinctKeysCons(x, rest);
        [x] + rest
  }

  /** Ascending by rank: the order `uasort` produces with the comparator `rank(a) - rank(b)`. */
  predicate SortedBy<T(==)>(entries: seq<(int, T)>, rank: T -> int)
  {
    forall i, j :: 0 <= i < j < |entries| ==> rank(entries[i].1) <= rank(entries[j].1)
  }

  lemma SortedCons<T>(x: (int, T), rest: seq<(int, T)>, rank: T -> int)
    requires SortedBy(rest, rank)
    requires rest == [] || rank(x.1) <= rank(rest[0].1)
    ensures SortedBy([x] + rest, rank)
  {
    var s := [x] + rest;
    forall i, j | 0 <= i < j < |s| ensures rank(s[i].1) <= rank(s[j].1) {
      assert s[j] == rest[j - 1];
      if i > 0 {
        assert s[i] == rest[i - 1];
      } else if j > 1 {
        assert rank(rest[0].1) <= rank(rest[j - 1].1);
      }
    }
  }

  /** One insertion step: `x` goes in front of the first entry ranked strictly above it. */
  function Insert<T(==)>(x: (int, T), sorted: seq<(int, T)>, rank: T -> int): (r: seq<(int, T)>)
    requires SortedBy(sorted, rank)
    ensures SortedBy(r, rank)
    ensures multiset(r) == multiset(sorted) + multiset{x}
    ensures sorted == [] ==> r == [x]
    ensures sorted != [] ==> r[0] == x || r[0] == sorted[0]
  {
    if sorted == [] then
      [x]
    else
      var y := sorted[0];
      assert sorted == [y] + sorted[1..];
      if rank(x.1) < rank(y.1) then
        SortedCons(x, sorted, rank);
        [x] + sorted
      else
        assert SortedBy(sorted[1..], rank) by {
          forall i, j | 0 <= i < j < |sorted[1..]|
            ensures rank(sorted[1..][i].1) <= rank(sorted[1..][j].1)
          {
            assert sorted[1..][i] == sorted[i + 1] && sorted[1..][j] == sorted[j + 1];
          }
        }
        var rest := Insert(x, sorted[1..], rank);
        assert rest[0] == x || rest[0] == sorted[1];
        SortedCons(y, rest, rank);
        [y] + rest
  }

  /** Inserting an entry whose set key is new keeps the keys distinct. */
  lemma {:induction false} InsertDistinct<T>(x: (int, T), sorted: seq<(int, T)>, rank: T -> int)
    requires SortedBy(sorted, rank)
    requires DistinctKeys(sorted) && !HasKey(sorted, x.0)
    ensures DistinctKeys(Insert(x, sorted, rank))
  {
    if sorted == [] {
      ConsDistinct(x, []);
    } else {
      var y := sorted[0];
      assert sorted == [y] + sorted[1..];
      DistinctKeysCons(y, sorted[1..]);
      HasKeyCons(sorted, x.0);
      if rank(x.1) < rank(y.1) {
        ConsDistinct(x, sorted);
      } else {
        var rest := Insert(x, sorted[1..], rank);
        assert SortedBy(sorted[1..], rank) by {
          forall i, j | 0 <= i < j < |sorted[1..]|
            ensures rank(sorted[1..][i].1) <= rank(sorted[1..][j].1)
          {
            assert sorted[1..][i] == sorted[i + 1] && sorted[1..][j] == sorted[j + 1];
          }
        }
        InsertDistinct(x, sorted[1..], rank);
        assert multiset(rest) == multiset([x] + sorted[1..]);
        PermutationKeys(rest, [x] + sorted[1..], y.0);
        HasKeyCons([x] + sorted[1..], y.0);
        assert ([x] + sorted[1..])[1..] == sorted[1..];
        ConsDistinct(y, rest);
        assert Insert(x, sorted, rank) == [y] + rest;
      }
    }
  }

  /**
   * The sets a cache holds keep one entry per set key, and a key is
   * marked finalized at most once.
   */
  class MultiCache<K(==, !new), T(==)> {
    var items: map<K, Slot<T>>
    var finalized: seq<K>

    ghost predicate Valid()
      reads this
    {
      && (forall i, j :: 0 <= i < j < |finalized| ==> finalized[i] != finalized[j])
      && (forall k :: k in items && items[k].Set? ==> DistinctKeys(items[k].entries))
    }

    constructor ()
      ensures Valid()
      ensures items == map[] && finalized == []
    {
      items := map[];
      finalized := [];
    }

    /** `isFinalized`: the key was marked by `setItem` or `finalize` and not cleared since. */
    predicate IsFinalized(cacheKey: K)
      reads this
    {
      cacheKey in finalized
    }

    /** `getItem`: what the key holds, or null. */
    function GetItem(cacheKey: K): (r: Option<Slot<T>>)
      reads this
      ensures r.Some? <==> cacheKey in items
      ensures r.Some? ==> r.value == items[cacheKey]
    {
      if cacheKey in items then Some(items[cacheKey]) else None
    }

    /** `getItems`: what the key holds, or the empty set. */
    function GetItems(cacheKey: K): (r: Slot<T>)
      reads this
      ensures cacheKey !in items ==> r == Set([])
      ensures cacheKey in items ==> r == items[cacheKey]
    {
      if cacheKey in items then items[cacheKey] else Set([])
    }

    /** `getKeys`: the finalized keys, in the order they were first marked. */
    function GetKeys(): (r: seq<K>)
      reads this
      ensures forall k :: k in r <==> IsFinalized(k)
    {
      finalized
    }

    /** `setItem`: store one item under the key and mark it finalized. */
    method SetItem(item: T, cacheKey: K)
      requires Valid()
      modifies this
      ensures Valid()
      ensures items == old(items)[cacheKey := Single(item)]
      ensures finalized == if cacheKey in old(finalized) then old(finalized) else old(finalized) + [cacheKey]
      ensures GetItem(cacheKey) == Some(Single(item)) && IsFinalized(cacheKey)
    {
      items := items[cacheKey := Single(item)];
      if cacheKey !in finalized {
        finalized := finalized + [cacheKey];
      }
    }

    /** `clearItem`: forget what the key holds and its flag. */
    method ClearItem(cacheKey: K)
      requires Valid()
      modifies this
      ensures Valid()
      ensures items == old(items) - {cacheKey}
      ensures finalized == RemoveKey(old(finalized), cacheKey)
      ensures GetItem(cacheKey) == None && GetItems(cacheKey) == Set([]) && !IsFinalized(cacheKey)
      ensures forall k :: k != cacheKey ==> (IsFinalized(k) <==> old(IsFinalized(k)))
    {
      items := items - {cacheKey};
      finalized := RemoveKey(finalized, cacheKey);
    }

    /** `addItem`: put the item under its set key in the key's set, creating the set if needed. */
    method AddItem(item: T, setKey: int, cacheKey: K)
      requires Valid()
      requires cacheKey !in items || items[cacheKey].Set?
      modifies this`items
      ensures Valid()
      ensures var before := if cacheKey in old(items) then old(items)[cacheKey].entries else [];
        items == old(items)[cacheKey := Set(Put(before, setKey, item))]
      ensures Lookup(GetItems(cacheKey).entries, setKey) == Some(item)
    {
      var before := if cacheKey in items then items[cacheKey].entries else [];
      items := items[cacheKey := Set(Put(before, setKey, item))];
    }

    /** `finalize`: mark the key; what it holds is unchanged. */
    method Finalize(cacheKey: K)
      requires Valid()
      modifies this`finalized
      ensures Valid()
      ensures finalized == if cacheKey in old(finalized) then old(finalized) else old(finalized) + [cacheKey]
      ensures IsFinalized(cacheKey)
    {
      if cacheKey !in finalized {
        finalized := finalized + [cacheKey];
      }
    }

    /** `removeItem`: drop one entry of the key's set, if both are there. */
    method RemoveItem(setKey: int, cacheKey: K)
      requires Valid()
      requires cacheKey !in items || items[cacheKey].Set?
      modifies this`items
      ensures Valid()
      ensures cacheKey !in old(items) ==> items == old(items)
      ensures cacheKey in old(items) ==> items == old(items)[cacheKey := Set(Remove(old(items)[cacheKey].entries, setKey))]
    {
      if cacheKey in items && Lookup(items[cacheKey].entries, setKey).Some? {
        items := items[cacheKey := Set(Remove(items[cacheKey].entries, setKey))];
      } else if cacheKey in items {
        assert Remove(items[cacheKey].entries, setKey) == items[cacheKey].entries;
      }
    }

    /**
     * `sortSet`: reorder the key's set ascending by `rank`, each item
     * keeping its set key; nothing happens when the key holds nothing.
     */
    method SortSet(rank: T -> int, cacheKey: K)
      requires Valid()
      requires cacheKey !in items || items[cacheKey].Set?
      modifies this`items
      ensures Valid()
      ensures cacheKey !in old(items) ==> items == old(items)
      ensures cacheKey in old(items) ==>
        && items.Keys == old(items).Keys
        && (forall k :: k in items && k != cacheKey ==> items[k] == old(items)[k])
        && items[cacheKey].Set?
        && SortedBy(items[cacheKey].entries, rank)
        && multiset(items[cacheKey].entries) == multiset(old(items)[cacheKey].entries)
    {
      if cacheKey !in items {
        return;
      }
      var sorted := SortEntries(items[cacheKey].entries, rank);
      items := items[cacheKey := Set(sorted)];
    }
  }

  /** `unset($_cacheState[$cacheKey])`. */
  function RemoveKey<K(==, !new)>(keys: seq<K>, cacheKey: K): (r: seq<K>)
    ensures forall k :: k in r <==> k in keys && k != cacheKey
    ensures (forall i, j :: 0 <= i < j < |keys| ==> keys[i] != keys[j]) ==>
      forall i, j :: 0 <= i < j < |r| ==> r[i] != r[j]
  {
    if keys == [] then []
    else if keys[0] == cacheKey then RemoveKey(keys[1..], cacheKey)
    else
      var rest := RemoveKey(keys[1..], cacheKey);
      assert keys[0] !in keys[1..] ==> keys[0] !in rest;
      [keys[0]] + rest
  }

  /** The sort `uasort` performs, here an insertion sort. */
  method SortEntries<T(==)>(entries: seq<(int, T)>, rank: T -> int) returns (sorted: seq<(int, T)>)
    ensures SortedBy(sorted, rank)
    ensures multiset(sorted) == multiset(entries)
    ensures DistinctKeys(entries) ==> DistinctKeys(sorted)
  {
    sorted := [];
    var i := 0;
    while i < |entries|
      invariant 0 <= i <= |entries|
      invariant SortedBy(sorted, rank)
      invariant multiset(sorted) == multiset(entries[..i])
      invariant DistinctKeys(entries) ==> DistinctKeys(sorted)
    {
      if DistinctKeys(entries) {
        PrefixMissesKey(entries, i);
        PermutationKeys(sorted, entries[..i], entries[i].0);
        InsertDistinct(entries[i], sorted, rank);
      }
      sorted := Insert(entries[i], sorted, rank);
      assert entries[..i + 1] == entries[..i] + [entries[i]];
      i := i + 1;
    }
    assert entries[..i] == entries;
  }
}
