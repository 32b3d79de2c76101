/**
 * The n-gram index writer (`Search::processElementIndex` in
 * src/helpers/Search.php) and the three tables it reconciles:
 * the pending queue (reliquary_indexqueue), the index rows
 * (reliquary_ngramindex) and the postings (reliquary_ngramdata, keyed by
 * (indexId, offset)).
 *
 * Table-level effects are modelled; SQL text is not. The MySQL dialect is
 * the one modelled: a multi-row insert reports its FIRST id as the last
 * insert id, and the gram-count update joins each index row with its
 * posting count.
 */
module IndexWriter {
  import opened Ngram

  /** What a queued value or an index row is about: a custom field (by id) or an element attribute. */
  datatype Target = Field(fieldId: int) | Attribute(name: string)

  /** A row of reliquary_indexqueue. */
  datatype QueueItem = QueueItem(elementId: int, siteId: int, target: Target, value: string)

  /** A row of reliquary_ngramindex, without its id. */
  datatype IndexRow = IndexRow(elementId: int, siteId: int, target: Target, ngrams: int)

  /** How a queued value finds its index row: an existing id, or a place in the batch of new rows. */
  datatype Slot = Reuse(id: int) | Stage(offset: nat)

  // ---------------------------------------------------------------------
  // The queue lookup

  predicate HasTarget(q: seq<QueueItem>, t: Target)
  {
    exists i :: 0 <= i < |q| && q[i].target == t
  }

  predicate DistinctTargets(q: seq<QueueItem>)
  {
    forall i, j :: 0 <= i < j < |q| ==> q[i].target != q[j].target
  }

  /** `q[k]` is the last item of `q` for its target. */
  predicate IsLatestAt(q: seq<QueueItem>, k: int)
    requires 0 <= k < |q|
  {
    !HasTarget(q[k + 1..], q[k].target)
  }

  /** `x` occurs in `q` at a position after which its target is not queued again. */
  predicate IsLatestIn(q: seq<QueueItem>, x: QueueItem)
  {
    exists k :: 0 <= k < |q| && q[k] == x && IsLatestAt(q, k)
  }

  /**
   * One item per target: the one queued last, kept in queue order
   * (`SELECT MAX(id) … GROUP BY fieldId, attribute`).
   */
  function Latest(q: seq<QueueItem>): seq<QueueItem>
  {
    if q == [] then []
    else if HasTarget(q[1..], q[0].target) then Latest(q[1..])
    else [q[0]] + Latest(q[1..])
  }

  /** The queue rows of one element on one site, in queue order. */
  function ForElement(q: seq<QueueItem>, elementId: int, siteId: int): (r: seq<QueueItem>)
    ensures forall x :: x in r <==> x in q && x.elementId == elementId && x.siteId == siteId
  {
    if q == [] then []
    else if q[0].elementId == elementId && q[0].siteId == siteId then [q[0]] + ForElement(q[1..], elementId, siteId)
    else ForElement(q[1..], elementId, siteId)
  }

  /** The values `processElementIndex(elementId, siteId)` indexes: the latest queued value per target of that element and site. */
  function Pending(q: seq<QueueItem>, elementId: int, siteId: int): seq<QueueItem>
  {
    Latest(ForElement(q, elementId, siteId))
  }

  /** The queue with every row of one element and site removed (`clearPendingIndexQueue`). */
  function WithoutElement(q: seq<QueueItem>, elementId: int, siteId: int): (r: seq<QueueItem>)
    ensures forall x :: x in r <==> x in q && !(x.elementId == elementId && x.siteId == siteId)
  {
    if q == [] then []
    else if q[0].elementId == elementId && q[0].siteId == siteId then WithoutElement(q[1..], elementId, siteId)
    else [q[0]] + WithoutElement(q[1..], elementId, siteId)
  }

  /**
   * `Latest` keeps exactly one item per queued target, the last one queued
   * for it, and drops nothing else.
   */
  lemma {:induction false} LatestSpec(q: seq<QueueItem>)
    ensures DistinctTargets(Latest(q))
    ensures forall t :: HasTarget(Latest(q), t) <==> HasTarget(q, t)
    ensures forall x :: x in Latest(q) ==> IsLatestIn(q, x)
  {
    if q != [] {
      LatestSpec(q[1..]);
      var L := Latest(q);
      forall t ensures HasTarget(L, t) <==> HasTarget(q, t) {
        if HasTarget(q, t) {
          var i :| 0 <= i < |q| && q[i].target == t;
          if i > 0 {
            assert q[1..][i - 1].target == t;
          }
          if L != Latest(q[1..]) && i > 0 {
            assert HasTarget(Latest(q[1..]), t);
            var m :| 0 <= m < |Latest(q[1..])| && Latest(q[1..])[m].target == t;
            assert L[m + 1] == Latest(q[1..])[m];
          }
          if L != Latest(q[1..]) && i == 0 {
            assert L[0] == q[0];
          }
        }
        if HasTarget(L, t) {
          var m :| 0 <= m < |L| && L[m].target == t;
          if L != Latest(q[1..]) && m == 0 {
            assert q[0].target == t;
          } else {
            var m' := if L == Latest(q[1..]) then m else m - 1;
            assert Latest(q[1..])[m'].target == t;
            assert HasTarget(q[1..], t);
            var i :| 0 <= i < |q[1..]| && q[1..][i].target == t;
            assert q[i + 1].target == t;
          }
        }
      }
      forall x | x in L
        ensures IsLatestIn(q, x)
      {
        if L != Latest(q[1..]) && x == q[0] && !HasTarget(q[1..], x.target) {
          assert q[0] == x && IsLatestAt(q, 0);
        } else {
          assert x in Latest(q[1..]);
          assert IsLatestIn(q[1..], x);
          var k :| 0 <= k < |q[1..]| && q[1..][k] == x && IsLatestAt(q[1..], k);
          assert q[1..][k + 1..] == q[k + 2..];
          assert q[k + 1] == x && IsLatestAt(q, k + 1);
        }
      }
      if !HasTarget(q[1..], q[0].target) {
        forall j | 0 < j < |L| ensures L[0].target != L[j].target {
          assert L[j] == Latest(q[1..])[j - 1];
          assert HasTarget(Latest(q[1..]), L[j].target);
        }
      }
    }
  }

  /**
   * The pending values of (element, site) all belong to it, have distinct
   * targets, cover every target queued for it, and are each the last one
   * queued for their target.
   */
  lemma PendingSpec(q: seq<QueueItem>, elementId: int, siteId: int)
    ensures var p := Pending(q, elementId, siteId);
      && DistinctTargets(p)
      && (forall x :: x in p ==> x in q && x.elementId == elementId && x.siteId == siteId)
      && (forall i :: 0 <= i < |q| && q[i].elementId == elementId && q[i].siteId == siteId ==> HasTarget(p, q[i].target))
      && (forall x :: x in p ==> IsLatestIn(ForElement(q, elementId, siteId), x))
  {
    var f := ForElement(q, elementId, siteId);
    LatestSpec(f);
    forall i | 0 <= i < |q| && q[i].elementId == elementId && q[i].siteId == siteId
      ensures HasTarget(Latest(f), q[i].target)
    {
      assert q[i] in f;
      var k :| 0 <= k < |f| && f[k] == q[i];
      assert HasTarget(f, q[i].target);
    }
  }

  /**
   * The lookup as src/helpers/Search.php:98-107 writes it: the second
   * `where()` replaces the first, so only the site is filtered on and the
   * latest value per target is taken across every element of the site.
   */
  function SiteItems(q: seq<QueueItem>, siteId: int): (r: seq<QueueItem>)
    ensures forall x :: x in r <==> x in q && x.siteId == siteId
  {
    if q == [] then []
    else if q[0].siteId == siteId then [q[0]] + SiteItems(q[1..], siteId)
    else SiteItems(q[1..], siteId)
  }

  function PendingAsWritten(q: seq<QueueItem>, elementId: int, siteId: int): (r: seq<QueueItem>)
    ensures forall x :: x in r ==> x in q && x.siteId == siteId
  {
    LatestMembers(SiteItems(q, siteId));
    Latest(SiteItems(q, siteId))
  }

  lemma {:induction false} LatestMembers(q: seq<QueueItem>)
    ensures forall x :: x in Latest(q) ==> x in q
  {
    if q != [] {
      LatestMembers(q[1..]);
    }
  }

  /**
   * Two elements queue a value for the same field on site 1: as written,
   * element 1's pass picks up element 2's later value (and would index it
   * under element 1), while `Pending` keeps element 1's own value.
   */
  lemma PendingAsWrittenTakesOtherElements()
    ensures var q := [QueueItem(1, 1, Field(7), "alpha"), QueueItem(2, 1, Field(7), "beta")];
      && Pending(q, 1, 1) == [q[0]]
      && PendingAsWritten(q, 1, 1) == [q[1]]
      && PendingAsWritten(q, 1, 1)[0].elementId != 1
  {
    var q := [QueueItem(1, 1, Field(7), "alpha"), QueueItem(2, 1, Field(7), "beta")];
    assert q[1..] == [q[1]];
    assert ForElement(q, 1, 1) == [q[0]];
    assert SiteItems(q, 1) == q;
    assert HasTarget(q[1..], q[0].target);
    assert [q[1]][1..] == [];
  }

  // ---------------------------------------------------------------------
  // The index rows of one element

  /** The unique index (elementId, siteId, fieldId, attribute) of reliquary_ngramindex. */
  predicate UniqueTargets(rows: map<int, IndexRow>)
  {
    forall a, b ::
      (a in rows && b in rows && rows[a].elementId == rows[b].elementId
       && rows[a].siteId == rows[b].siteId && rows[a].target == rows[b].target) ==> a == b
  }

  predicate BelongsTo(row: IndexRow, elementId: int, siteId: int)
  {
    row.elementId == elementId && row.siteId == siteId
  }

  /** The ids of the index rows of one element on one site. */
  function RowsOf(rows: map<int, IndexRow>, elementId: int, siteId: int): (r: set<int>)
    ensures forall id :: id in r <==> id in rows && BelongsTo(rows[id], elementId, siteId)
  {
    set id | id in rows && BelongsTo(rows[id], elementId, siteId)
  }

  /** The index rows with the given ids, keyed by target; the ids must have distinct targets. */
  function TargetIndexOn(rows: map<int, IndexRow>, ids: set<int>): map<Target, int>
    requires ids <= rows.Keys
    requires forall a, b :: a in ids && b in ids && rows[a].target == rows[b].target ==> a == b
  {
    map id | id in ids :: rows[id].target := id
  }

  /**
   * `$indexMap` of the source: the index row of (element, site) for each
   * target, which is the inverse of the row-to-target relation.
   */
  function TargetIndex(rows: map<int, IndexRow>, elementId: int, siteId: int): (r: map<Target, int>)
    requires UniqueTargets(rows)
    ensures forall t :: t in r ==> r[t] in rows && BelongsTo(rows[r[t]], elementId, siteId) && rows[r[t]].target == t
    ensures forall id :: id in rows && BelongsTo(rows[id], elementId, siteId) ==> rows[id].target in r && r[rows[id].target] == id
  {
    TargetIndexOn(rows, RowsOf(rows, elementId, siteId))
  }

  /** `TargetIndex` is the only map from targets to the element's rows that inverts their targets. */
  lemma TargetIndexUnique(rows: map<int, IndexRow>, elementId: int, siteId: int, m: map<Target, int>)
    requires UniqueTargets(rows)
    requires forall t :: t in m ==> m[t] in RowsOf(rows, elementId, siteId) && rows[m[t]].target == t
    requires forall id :: id in RowsOf(rows, elementId, siteId) ==> rows[id].target in m && m[rows[id].target] == id
    ensures m == TargetIndex(rows, elementId, siteId)
  {
    var ti := TargetIndex(rows, elementId, siteId);
    assert m.Keys == ti.Keys;
  }

  // ---------------------------------------------------------------------
  // Staging

  /** How many of the first `i` pending values have no index row yet. */
  function StagedBefore(p: seq<QueueItem>, indexMap: map<Target, int>, i: nat): nat
    requires i <= |p|
  {
    if i == 0 then 0
    else StagedBefore(p, indexMap, i - 1) + (if p[i - 1].target in indexMap then 0 else 1)
  }

  /** The slot of pending value `i`: its existing row, or `offset = count($newIndexes)` at the time. */
  function SlotFor(p: seq<QueueItem>, indexMap: map<Target, int>, i: nat): Slot
    requires i < |p|
  {
    if p[i].target in indexMap then Reuse(indexMap[p[i].target]) else Stage(StagedBefore(p, indexMap, i))
  }

  /** `$newIndex['id'] ?? ($firstId + $newIndex['offset'])`. */
  function SlotId(slot: Slot, firstId: int): int
  {
    match slot
    case Reuse(id) => id
    case Stage(offset) => firstId + offset
  }

  /** The index-row id pending value `i` is written under. */
  function AssignedId(p: seq<QueueItem>, indexMap: map<Target, int>, firstId: int, i: nat): int
    requires i < |p|
  {
    SlotId(SlotFor(p, indexMap, i), firstId)
  }

  /** The grams a queued value is indexed by: its normalised text, wrapped in spaces. */
  function ValueGrams(lib: TextLib, intl: bool, item: QueueItem): seq<string>
  {
    Grams(Normalize(lib, intl, " " + item.value + " "))
  }

  lemma {:induction false} StagedBeforeAtMost(p: seq<QueueItem>, indexMap: map<Target, int>, j: nat)
    requires j <= |p|
    ensures StagedBefore(p, indexMap, j) <= j
  {
    if j > 0 {
      StagedBeforeAtMost(p, indexMap, j - 1);
    }
  }

  /** Offsets only grow along the pending list, and strictly past a staged value. */
  lemma {:induction false} StagedBeforeMono(p: seq<QueueItem>, indexMap: map<Target, int>, i: nat, j: nat)
    requires i <= j <= |p|
    ensures StagedBefore(p, indexMap, i) <= StagedBefore(p, indexMap, j)
    ensures i < j && p[i].target !in indexMap ==> StagedBefore(p, indexMap, i) < StagedBefore(p, indexMap, j)
    decreases j - i
  {
    if i < j {
      StagedBeforeMono(p, indexMap, i, j - 1);
    }
  }

  /**
   * Distinct pending values are written under distinct index rows: reused
   * ids belong to distinct targets, and new ids lie above every existing id.
   */
  lemma AssignedIdsDistinct(p: seq<QueueItem>, indexMap: map<Target, int>, firstId: int, i: nat, j: nat)
    requires DistinctTargets(p)
    requires forall t :: t in indexMap ==> indexMap[t] < firstId
    requires forall t, u :: t in indexMap && u in indexMap && indexMap[t] == indexMap[u] ==> t == u
    requires i < j < |p|
    ensures AssignedId(p, indexMap, firstId, i) != AssignedId(p, indexMap, firstId, j)
  {
    StagedBeforeMono(p, indexMap, i, j);
    if p[i].target !in indexMap && p[j].target !in indexMap {
    } else if p[i].target in indexMap && p[j].target in indexMap {
      assert p[i].target != p[j].target;
    }
  }

  /** A staged value's id lies in the block the batch insert allocates. */
  lemma StagedIdInBatch(p: seq<QueueItem>, indexMap: map<Target, int>, firstId: int, i: nat)
    requires i < |p| && p[i].target !in indexMap
    ensures firstId <= AssignedId(p, indexMap, firstId, i) < firstId + StagedBefore(p, indexMap, |p|)
  {
    StagedBeforeMono(p, indexMap, i + 1, |p|);
  }

  // ---------------------------------------------------------------------
  // Postings

  /** The postings of index row `id` are exactly `grams`, at offsets 0..|grams|-1. */
  predicate HoldsGrams(postings: map<(int, int), string>, id: int, grams: seq<string>)
  {
    && (forall o :: 0 <= o < |grams| ==> (id, o) in postings && postings[(id, o)] == grams[o])
    && (forall k :: k in postings && k.0 == id ==> 0 <= k.1 < |grams|)
  }

  /** `COUNT(*) … GROUP BY indexId` for one index row. */
  function PostingCount(postings: map<(int, int), string>, id: int): nat
  {
    |set k | k in postings && k.0 == id|
  }

  lemma {:induction false} OffsetRangeSize(id: int, n: nat)
    ensures |set o | 0 <= o < n :: (id, o)| == n
  {
    if n > 0 {
      OffsetRangeSize(id, n - 1);
      assert (set o | 0 <= o < n :: (id, o)) == (set o | 0 <= o < n - 1 :: (id, o)) + {(id, n - 1)};
    }
  }

  /** When a row holds exactly the grams of its value, its posting count is the number of grams. */
  lemma PostingCountOfGrams(postings: map<(int, int), string>, id: int, grams: seq<string>)
    requires HoldsGrams(postings, id, grams)
    ensures PostingCount(postings, id) == |grams|
  {
    assert (set k | k in postings && k.0 == id) == (set o | 0 <= o < |grams| :: (id, o));
    OffsetRangeSize(id, |grams|);
  }

  /** An element with nothing pending has nothing in the queue, so clearing it changes nothing. */
  lemma NothingPending(q: seq<QueueItem>, elementId: int, siteId: int)
    requires Pending(q, elementId, siteId) == []
    ensures WithoutElement(q, elementId, siteId) == q
  {
    PendingSpec(q, elementId, siteId);
    forall x | x in q
      ensures !(x.elementId == elementId && x.siteId == siteId)
    {
      var i :| 0 <= i < |q| && q[i] == x;
    }
    WithoutElementNoop(q, elementId, siteId);
  }

  lemma PendingDistinct(q: seq<QueueItem>, elementId: int, siteId: int)
    ensures DistinctTargets(Pending(q, elementId, siteId))
  {
    PendingSpec(q, elementId, siteId);
  }

  lemma {:induction false} WithoutElementNoop(q: seq<QueueItem>, elementId: int, siteId: int)
    requires forall x :: x in q ==> !(x.elementId == elementId && x.siteId == siteId)
    ensures WithoutElement(q, elementId, siteId) == q
  {
    if q != [] {
      WithoutElementNoop(q[1..], elementId, siteId);
      assert q == [q[0]] + q[1..];
    }
  }

  /** Every offset of the batch of new rows is taken by some staged value. */
  lemma {:induction false} StagedOffsetHit(p: seq<QueueItem>, indexMap: map<Target, int>, n: nat, k: nat) returns (i: nat)
    requires n <= |p| && k < StagedBefore(p, indexMap, n)
    ensures i < n && p[i].target !in indexMap && StagedBefore(p, indexMap, i) == k
  {
    if k < StagedBefore(p, indexMap, n - 1) {
      i := StagedOffsetHit(p, indexMap, n - 1, k);
    } else {
      i := n - 1;
    }
  }

  /** The rows a batch insert adds: target `newIndexes[k]` under id `firstId + k`, with no grams counted yet. */
  function Batch(elementId: int, siteId: int, newIndexes: seq<Target>, firstId: int): (r: map<int, IndexRow>)
    ensures forall id :: id in r <==> firstId <= id < firstId + |newIndexes|
    ensures forall id :: id in r ==> r[id] == IndexRow(elementId, siteId, newIndexes[id - firstId], 0)
  {
    if newIndexes == [] then map[]
    else
      var k := |newIndexes| - 1;
      Batch(elementId, siteId, newIndexes[..k], firstId)[firstId + k := IndexRow(elementId, siteId, newIndexes[k], 0)]
  }

  /** The existing rows the first `n` pending values reuse. */
  function ReusedIds(p: seq<QueueItem>, indexMap: map<Target, int>, n: nat): set<int>
    requires n <= |p|
  {
    if n == 0 then {}
    else ReusedIds(p, indexMap, n - 1) + (if p[n - 1].target in indexMap then {indexMap[p[n - 1].target]} else {})
  }

  /** The slots of the first `n` pending values. */
  function Slots(p: seq<QueueItem>, indexMap: map<Target, int>, n: nat): seq<Slot>
    requires n <= |p|
  {
    if n == 0 then [] else Slots(p, indexMap, n - 1) + [SlotFor(p, indexMap, n - 1)]
  }

  /** The targets of the first `n` pending values that have no row yet: `$newIndexes`. */
  function StagedTargets(p: seq<QueueItem>, indexMap: map<Target, int>, n: nat): seq<Target>
    requires n <= |p|
  {
    if n == 0 then []
    else StagedTargets(p, indexMap, n - 1) + (if p[n - 1].target in indexMap then [] else [p[n - 1].target])
  }

  lemma {:induction false} SlotAt(p: seq<QueueItem>, indexMap: map<Target, int>, n: nat, i: nat)
    requires i < n <= |p|
    ensures |Slots(p, indexMap, n)| == n && Slots(p, indexMap, n)[i] == SlotFor(p, indexMap, i)
  {
    if i < n - 1 {
      SlotAt(p, indexMap, n - 1, i);
    } else if n > 1 {
      SlotAt(p, indexMap, n - 1, 0);
    }
  }

  lemma {:induction false} StagedTargetsLength(p: seq<QueueItem>, indexMap: map<Target, int>, n: nat)
    requires n <= |p|
    ensures |StagedTargets(p, indexMap, n)| == StagedBefore(p, indexMap, n)
  {
    if n > 0 {
      StagedTargetsLength(p, indexMap, n - 1);
    }
  }

  /** The staged value at offset StagedBefore(i) of the batch is pending value i. */
  lemma {:induction false} StagedTargetAt(p: seq<QueueItem>, indexMap: map<Target, int>, n: nat, i: nat)
    requires i < n <= |p| && p[i].target !in indexMap
    ensures StagedBefore(p, indexMap, i) < |StagedTargets(p, indexMap, n)|
    ensures StagedTargets(p, indexMap, n)[StagedBefore(p, indexMap, i)] == p[i].target
  {
    StagedTargetsLength(p, indexMap, n - 1);
    if i < n - 1 {
      StagedTargetAt(p, indexMap, n - 1, i);
    }
  }

  /**
   * Lines 153-169: each pending value either reuses the row `$indexMap`
   * holds for its target, which is then spared from deletion, or is staged
   * at offset `count($newIndexes)`.
   */
  method StageValues(p: seq<QueueItem>, indexMap: map<Target, int>, indexesToDelete: set<int>)
    returns (slots: seq<Slot>, newIndexes: seq<Target>, remaining: set<int>)
    ensures slots == Slots(p, indexMap, |p|)
    ensures newIndexes == StagedTargets(p, indexMap, |p|)
    ensures remaining == indexesToDelete - ReusedIds(p, indexMap, |p|)
  {
    slots, newIndexes, remaining := [], [], indexesToDelete;
    var dataIndex := 0;
    while dataIndex < |p|
      invariant 0 <= dataIndex <= |p|
      invariant slots == Slots(p, indexMap, dataIndex)
      invariant newIndexes == StagedTargets(p, indexMap, dataIndex)
      invariant remaining == indexesToDelete - ReusedIds(p, indexMap, dataIndex)
    {
      var key := p[dataIndex].target;
      if key in indexMap {
        slots := slots + [Reuse(indexMap[key])];
        remaining := remaining - {indexMap[key]};
      } else {
        slots := slots + [Stage(|newIndexes|)];
        newIndexes := newIndexes + [key];
      }
      StagedTargetsLength(p, indexMap, dataIndex);
      dataIndex := dataIndex + 1;
    }
  }

  /** Lines 234-241: one posting per gram of one value, at offsets 0, 1, 2, …. */
  method AddGrams(data: map<(int, int), string>, id: int, ngrams: seq<string>) returns (newData: map<(int, int), string>)
    requires forall k :: k in data ==> k.0 != id
    ensures forall k :: k in newData <==> k in data || (k.0 == id && 0 <= k.1 < |ngrams|)
    ensures forall k :: k in data ==> newData[k] == data[k]
    ensures forall o :: 0 <= o < |ngrams| ==> newData[(id, o)] == ngrams[o]
  {
    newData := data;
    var key := 0;
    while key < |ngrams|
      invariant 0 <= key <= |ngrams|
      invariant forall k :: k in newData <==> k in data || (k.0 == id && 0 <= k.1 < key)
      invariant forall k :: k in data ==> newData[k] == data[k]
      invariant forall o :: 0 <= o < key ==> newData[(id, o)] == ngrams[o]
    {
      newData := newData[(id, key) := ngrams[key]];
      key := key + 1;
    }
  }

  /**
   * Lines 226-242: the postings of every pending value, under the id its
   * slot resolves to, at offsets 0, 1, 2, … of its grams.
   */
  method BuildPostings(p: seq<QueueItem>, slots: seq<Slot>, firstId: int, lib: TextLib, intl: bool)
    returns (newData: map<(int, int), string>)
    requires |slots| == |p|
    requires forall i, j :: 0 <= i < j < |p| ==> SlotId(slots[i], firstId) != SlotId(slots[j], firstId)
    ensures forall i :: 0 <= i < |p| ==> HoldsGrams(newData, SlotId(slots[i], firstId), ValueGrams(lib, intl, p[i]))
    ensures forall k :: k in newData ==> exists i :: 0 <= i < |p| && k.0 == SlotId(slots[i], firstId)
    ensures forall k :: k in newData ==> k.1 >= 0 && |newData[k]| == 3
  {
    newData := map[];
    var n := 0;
    while n < |p|
      invariant 0 <= n <= |p|
      invariant forall i :: 0 <= i < n ==> HoldsGrams(newData, SlotId(slots[i], firstId), ValueGrams(lib, intl, p[i]))
      invariant forall k :: k in newData ==> exists i :: 0 <= i < n && k.0 == SlotId(slots[i], firstId)
      invariant forall k :: k in newData ==> k.1 >= 0 && |newData[k]| == 3
    {
      newData := AddValuePostings(p, slots, firstId, lib, intl, n, newData);
      n := n + 1;
    }
  }

  /** One iteration of `BuildPostings`: the postings of pending value `n`. */
  method AddValuePostings(p: seq<QueueItem>, slots: seq<Slot>, firstId: int, lib: TextLib, intl: bool,
                          n: int, data: map<(int, int), string>)
    returns (newData: map<(int, int), string>)
    requires |slots| == |p| && 0 <= n < |p|
    requires forall i, j :: 0 <= i < j < |p| ==> SlotId(slots[i], firstId) != SlotId(slots[j], firstId)
    requires forall i :: 0 <= i < n ==> HoldsGrams(data, SlotId(slots[i], firstId), ValueGrams(lib, intl, p[i]))
    requires forall k :: k in data ==> exists i :: 0 <= i < n && k.0 == SlotId(slots[i], firstId)
    requires forall k :: k in data ==> k.1 >= 0 && |data[k]| == 3
    ensures forall i :: 0 <= i < n + 1 ==> HoldsGrams(newData, SlotId(slots[i], firstId), ValueGrams(lib, intl, p[i]))
    ensures forall k :: k in newData ==> exists i :: 0 <= i < n + 1 && k.0 == SlotId(slots[i], firstId)
    ensures forall k :: k in newData ==> k.1 >= 0 && |newData[k]| == 3
  {
    var id := SlotId(slots[n], firstId);
    var ngrams := BuildNgram(lib, intl, " " + p[n].value + " ");
    forall k | k in data ensures k.0 != id {
      var i :| 0 <= i < n && k.0 == SlotId(slots[i], firstId);
    }
    newData := AddGrams(data, id, ngrams);
    forall i | 0 <= i < n
      ensures HoldsGrams(newData, SlotId(slots[i], firstId), ValueGrams(lib, intl, p[i]))
    {
      assert HoldsGrams(data, SlotId(slots[i], firstId), ValueGrams(lib, intl, p[i]));
    }
    forall k | k in newData ensures exists i :: 0 <= i < n + 1 && k.0 == SlotId(slots[i], firstId) {
      if k in data {
        var i :| 0 <= i < n && k.0 == SlotId(slots[i], firstId);
        assert 0 <= i < n + 1;
      } else {
        assert k.0 == SlotId(slots[n], firstId);
      }
    }
  }

  /**
   * After the batch insert, the id of pending value i names a row of the
   * element with that value's target: the reused row, unchanged, or a new
   * row with no grams counted.
   */
  lemma AssignedRow(rows0: map<int, IndexRow>, p: seq<QueueItem>, im: map<Target, int>, firstId: int,
                    elementId: int, siteId: int, i: nat)
    requires UniqueTargets(rows0) && forall id :: id in rows0 ==> id < firstId
    requires im == TargetIndex(rows0, elementId, siteId)
    requires i < |p|
    ensures var id, rows1 := AssignedId(p, im, firstId, i), rows0 + Batch(elementId, siteId, StagedTargets(p, im, |p|), firstId);
      && id in rows1 && BelongsTo(rows1[id], elementId, siteId) && rows1[id].target == p[i].target
      && (id in rows0 <==> p[i].target in im)
      && (id in rows0 ==> rows1[id] == rows0[id])
      && (id !in rows0 ==> rows1[id].ngrams == 0)
  {
    var id := AssignedId(p, im, firstId, i);
    var staged := StagedTargets(p, im, |p|);
    var t := p[i].target;
    if t in im {
      assert id == im[t];
      ReusedRowKept(rows0, Batch(elementId, siteId, staged, firstId), im, t, firstId, elementId, siteId);
    } else {
      assert id == firstId + StagedBefore(p, im, i);
      StagedIdInBatch(p, im, firstId, i);
      StagedTargetAt(p, im, |p|, i);
      StagedTargetsLength(p, im, |p|);
      NewRowAdded(rows0, elementId, siteId, staged, firstId, id);
    }
  }

  /** A row of the element that existed before the batch keeps its value. */
  lemma ReusedRowKept(rows0: map<int, IndexRow>, batch: map<int, IndexRow>, im: map<Target, int>, t: Target,
                      firstId: int, elementId: int, siteId: int)
    requires UniqueTargets(rows0) && forall x :: x in rows0 ==> x < firstId
    requires im == TargetIndex(rows0, elementId, siteId) && t in im
    requires forall x :: x in batch ==> firstId <= x
    ensures var id, rows1 := im[t], rows0 + batch;
      && id in rows0 && id in rows1 && rows1[id] == rows0[id]
      && BelongsTo(rows1[id], elementId, siteId) && rows1[id].target == t
  {
    assert im[t] !in batch;
  }

  /** An id of the batch names the new row of the batch. */
  lemma NewRowAdded(rows0: map<int, IndexRow>, elementId: int, siteId: int, staged: seq<Target>, firstId: int, id: int)
    requires forall x :: x in rows0 ==> x < firstId
    requires firstId <= id < firstId + |staged|
    ensures var rows1 := rows0 + Batch(elementId, siteId, staged, firstId);
      id in rows1 && id !in rows0 && rows1[id] == IndexRow(elementId, siteId, staged[id - firstId], 0)
  {
  }

  /** Every new row of the batch is the row of some staged value. */
  lemma BatchRowAssigned(p: seq<QueueItem>, im: map<Target, int>, firstId: int, id: int) returns (i: nat)
    requires firstId <= id < firstId + StagedBefore(p, im, |p|)
    ensures i < |p| && p[i].target !in im && AssignedId(p, im, firstId, i) == id
  {
    i := StagedOffsetHit(p, im, |p|, id - firstId);
  }

  lemma {:induction false} ReusedIdWitness(p: seq<QueueItem>, im: map<Target, int>, n: nat, id: int) returns (i: nat)
    requires n <= |p| && id in ReusedIds(p, im, n)
    ensures i < n && p[i].target in im && im[p[i].target] == id
  {
    if id in ReusedIds(p, im, n - 1) {
      i := ReusedIdWitness(p, im, n - 1, id);
    } else {
      i := n - 1;
    }
  }

  lemma {:induction false} ReusedIdMember(p: seq<QueueItem>, im: map<Target, int>, n: nat, i: nat)
    requires i < n <= |p| && p[i].target in im
    ensures im[p[i].target] in ReusedIds(p, im, n)
  {
    if i < n - 1 {
      ReusedIdMember(p, im, n - 1, i);
    }
  }

  /** How the steps of a pass change the rows: batch insert, deletion of the unqueued rows, count refresh. */
  ghost predicate RowSteps(rows0: map<int, IndexRow>, rows1: map<int, IndexRow>, rows2: map<int, IndexRow>,
                           rows3: map<int, IndexRow>, p: seq<QueueItem>, im: map<Target, int>, firstId: int,
                           elementId: int, siteId: int, del: set<int>)
  {
    && firstId >= 1
    && UniqueTargets(rows0) && (forall id :: id in rows0 ==> 0 < id < firstId && rows0[id].ngrams >= 0)
    && im == TargetIndex(rows0, elementId, siteId)
    && DistinctTargets(p)
    && rows1 == rows0 + Batch(elementId, siteId, StagedTargets(p, im, |p|), firstId)
    && |StagedTargets(p, im, |p|)| == StagedBefore(p, im, |p|)
    && del == RowsOf(rows0, elementId, siteId) - ReusedIds(p, im, |p|)
    && (forall id :: id in rows2 <==> id in rows1 && id !in del)
    && (forall id :: id in rows2 ==> rows2[id] == rows1[id])
    && rows3.Keys == rows2.Keys
    && (forall id :: id in rows3 ==> rows3[id] == rows2[id].(ngrams := rows3[id].ngrams))
    && (forall id :: id in rows3 && !BelongsTo(rows2[id], elementId, siteId) ==> rows3[id] == rows2[id])
  }

  lemma RowsBounded(rows0: map<int, IndexRow>, rows1: map<int, IndexRow>, rows2: map<int, IndexRow>,
                    rows3: map<int, IndexRow>, p: seq<QueueItem>, im: map<Target, int>, firstId: int,
                    elementId: int, siteId: int, del: set<int>)
    requires RowSteps(rows0, rows1, rows2, rows3, p, im, firstId, elementId, siteId, del)
    ensures forall id :: id in rows3 ==> 0 < id < firstId + StagedBefore(p, im, |p|)
    ensures forall id :: id in rows3 && id !in rows0 ==> BelongsTo(rows3[id], elementId, siteId)
    ensures forall id :: id in rows0 && !BelongsTo(rows0[id], elementId, siteId) ==> id in rows3 && rows3[id] == rows0[id]
  {
    var batch := Batch(elementId, siteId, StagedTargets(p, im, |p|), firstId);
    var n := StagedBefore(p, im, |p|);
    forall id | id in rows3
      ensures 0 < id < firstId + n
      ensures id !in rows0 ==> BelongsTo(rows3[id], elementId, siteId)
    {
      assert id in rows1;
      if id !in rows0 {
        assert id in batch;
        assert rows1[id] == batch[id];
      }
    }
    forall id | id in rows0 && !BelongsTo(rows0[id], elementId, siteId)
      ensures id in rows3 && rows3[id] == rows0[id]
    {
      assert id !in batch;
      assert rows1[id] == rows0[id];
      assert id !in RowsOf(rows0, elementId, siteId);
    }
  }

  /** An existing row of the element survives exactly when its target was queued. */
  lemma RowsSurvive(rows0: map<int, IndexRow>, rows1: map<int, IndexRow>, rows2: map<int, IndexRow>,
                    rows3: map<int, IndexRow>, p: seq<QueueItem>, im: map<Target, int>, firstId: int,
                    elementId: int, siteId: int, del: set<int>)
    requires RowSteps(rows0, rows1, rows2, rows3, p, im, firstId, elementId, siteId, del)
    ensures forall id :: id in rows0 && BelongsTo(rows0[id], elementId, siteId) ==>
      (id in rows3 <==> HasTarget(p, rows0[id].target))
    ensures forall i :: 0 <= i < |p| ==> AssignedId(p, im, firstId, i) in rows3
  {
    forall id | id in rows0 && BelongsTo(rows0[id], elementId, siteId)
      ensures id in rows3 <==> HasTarget(p, rows0[id].target)
    {
      if HasTarget(p, rows0[id].target) {
        var i :| 0 <= i < |p| && p[i].target == rows0[id].target;
        ReusedIdMember(p, im, |p|, i);
      }
      if id in rows3 {
        var i := ReusedIdWitness(p, im, |p|, id);
      }
    }
    forall i | 0 <= i < |p|
      ensures AssignedId(p, im, firstId, i) in rows3
    {
      AssignedRow(rows0, p, im, firstId, elementId, siteId, i);
      if p[i].target in im {
        ReusedIdMember(p, im, |p|, i);
      }
    }
  }

  /** Every row of the element after a pass is the row of some queued value. */
  lemma RowsAssigned(rows0: map<int, IndexRow>, rows1: map<int, IndexRow>, rows2: map<int, IndexRow>,
                     rows3: map<int, IndexRow>, p: seq<QueueItem>, im: map<Target, int>, firstId: int,
                     elementId: int, siteId: int, del: set<int>)
    requires RowSteps(rows0, rows1, rows2, rows3, p, im, firstId, elementId, siteId, del)
    ensures forall id :: id in rows3 && BelongsTo(rows3[id], elementId, siteId) ==>
      exists i :: 0 <= i < |p| && id == AssignedId(p, im, firstId, i)
  {
    forall id | id in rows3 && BelongsTo(rows3[id], elementId, siteId)
      ensures exists i :: 0 <= i < |p| && id == AssignedId(p, im, firstId, i)
    {
      if id in rows0 {
        var i := ReusedIdWitness(p, im, |p|, id);
        assert id == AssignedId(p, im, firstId, i);
      } else {
        var batch := Batch(elementId, siteId, StagedTargets(p, im, |p|), firstId);
        assert id in batch;
        var i := BatchRowAssigned(p, im, firstId, id);
      }
    }
  }

  /** A pass keeps the unique index on (element, site, target). */
  lemma RowsUnique(rows0: map<int, IndexRow>, rows1: map<int, IndexRow>, rows2: map<int, IndexRow>,
                   rows3: map<int, IndexRow>, p: seq<QueueItem>, im: map<Target, int>, firstId: int,
                   elementId: int, siteId: int, del: set<int>)
    requires RowSteps(rows0, rows1, rows2, rows3, p, im, firstId, elementId, siteId, del)
    ensures UniqueTargets(rows3)
  {
    RowsAssigned(rows0, rows1, rows2, rows3, p, im, firstId, elementId, siteId, del);
    RowsBounded(rows0, rows1, rows2, rows3, p, im, firstId, elementId, siteId, del);
    forall a, b | a in rows3 && b in rows3 && rows3[a].elementId == rows3[b].elementId
      && rows3[a].siteId == rows3[b].siteId && rows3[a].target == rows3[b].target
      ensures a == b
    {
      if BelongsTo(rows3[a], elementId, siteId) {
        var i :| 0 <= i < |p| && a == AssignedId(p, im, firstId, i);
        var j :| 0 <= j < |p| && b == AssignedId(p, im, firstId, j);
        AssignedRow(rows0, p, im, firstId, elementId, siteId, i);
        AssignedRow(rows0, p, im, firstId, elementId, siteId, j);
      } else {
        assert a in rows0 && b in rows0;
      }
    }
  }

  /** Postings of one id survive a union with postings of other ids. */
  lemma HoldsGramsUnion(a: map<(int, int), string>, b: map<(int, int), string>, id: int, grams: seq<string>)
    requires HoldsGrams(b, id, grams)
    requires forall k :: k in a ==> k.0 != id
    ensures HoldsGrams(a + b, id, grams)
  {
  }

  /** Every posting built in a pass points at a row of the element on the site. */
  lemma NewDataOfElement(rows0: map<int, IndexRow>, p: seq<QueueItem>, im: map<Target, int>, firstId: int,
                         elementId: int, siteId: int, newData: map<(int, int), string>)
    requires UniqueTargets(rows0) && forall id :: id in rows0 ==> id < firstId
    requires im == TargetIndex(rows0, elementId, siteId)
    requires forall k :: k in newData ==> exists i :: 0 <= i < |p| && k.0 == AssignedId(p, im, firstId, i)
    ensures var rows1 := rows0 + Batch(elementId, siteId, StagedTargets(p, im, |p|), firstId);
      forall k :: k in newData ==> k.0 in RowsOf(rows1, elementId, siteId)
  {
    forall k | k in newData
      ensures k.0 in RowsOf(rows0 + Batch(elementId, siteId, StagedTargets(p, im, |p|), firstId), elementId, siteId)
    {
      var i :| 0 <= i < |p| && k.0 == AssignedId(p, im, firstId, i);
      AssignedRow(rows0, p, im, firstId, elementId, siteId, i);
    }
  }

  /** Postings of other elements and sites pass through a pass untouched, and no others appear. */
  lemma PostingsOthers(rows0: map<int, IndexRow>, rows1: map<int, IndexRow>, rows3: map<int, IndexRow>,
                       postings0: map<(int, int), string>, postings1: map<(int, int), string>,
                       newData: map<(int, int), string>, postings2: map<(int, int), string>,
                       elementId: int, siteId: int)
    requires forall k :: k in postings0 ==> k.0 in rows0
    requires forall id :: id in rows0 ==> id in rows1 && rows1[id] == rows0[id]
    requires postings1 == map k | k in postings0 && k.0 !in RowsOf(rows1, elementId, siteId) :: postings0[k]
    requires forall k :: k in newData ==> k.0 in RowsOf(rows1, elementId, siteId)
    requires postings2 == postings1 + newData
    requires forall id :: id in rows3 ==> id in rows1 && rows3[id].elementId == rows1[id].elementId && rows3[id].siteId == rows1[id].siteId
    ensures forall k :: k in postings0 && !BelongsTo(rows0[k.0], elementId, siteId) ==> k in postings2 && postings2[k] == postings0[k]
    ensures forall k :: k in postings2 && k.0 in rows3 && !BelongsTo(rows3[k.0], elementId, siteId) ==>
      k in postings0 && postings2[k] == postings0[k]
    ensures forall k :: k in postings2 ==> k in newData || (k in postings0 && !BelongsTo(rows0[k.0], elementId, siteId))
  {
    var ids := RowsOf(rows1, elementId, siteId);
    forall k | k in postings0 && !BelongsTo(rows0[k.0], elementId, siteId)
      ensures k in postings2 && postings2[k] == postings0[k]
    {
      var id := k.0;
      assert id in rows0 && id !in ids;
      assert k in postings1;
      assert k !in newData;
    }
    forall k | k in postings2
      ensures k in newData || (k in postings0 && !BelongsTo(rows0[k.0], elementId, siteId))
      ensures k.0 in rows3 && !BelongsTo(rows3[k.0], elementId, siteId) ==> k in postings0 && postings2[k] == postings0[k]
    {
      var id := k.0;
      if k !in newData {
        assert k in postings1;
        assert id in rows0 && id !in ids;
      } else if id in rows3 {
        assert id in ids;
      }
    }
  }

  // ---------------------------------------------------------------------
  // One pass over the tables, on values

  /**
   * The schema's unique target per (element, site), ids below the
   * auto-increment counter, and postings that point at existing index rows
   * with non-negative offsets and 3-character keys.
   */
  ghost predicate TablesValid(rows: map<int, IndexRow>, postings: map<(int, int), string>, nextId: int)
  {
    && nextId >= 1
    && (forall id :: id in rows ==> 0 < id < nextId && rows[id].ngrams >= 0)
    && UniqueTargets(rows)
    && (forall k :: k in postings ==> k.0 in rows && k.1 >= 0 && |postings[k]| == 3)
  }

  /** `DELETE FROM reliquary_ngramindex WHERE id IN (…)`. */
  function DropRows(rows: map<int, IndexRow>, del: set<int>): (r: map<int, IndexRow>)
    ensures forall id :: id in r <==> id in rows && id !in del
    ensures forall id :: id in r ==> r[id] == rows[id]
  {
    map id | id in rows && id !in del :: rows[id]
  }

  /** The postings whose index row is not among `ids`. */
  function DropPostings(postings: map<(int, int), string>, ids: set<int>): (r: map<(int, int), string>)
    ensures forall k :: k in r <==> k in postings && k.0 !in ids
    ensures forall k :: k in r ==> r[k] == postings[k]
  {
    map k | k in postings && k.0 !in ids :: postings[k]
  }

  /**
   * Lines 256-272: the element's rows take their posting count; the inner
   * join leaves a row with no postings as it was.
   */
  function CountedRows(rows: map<int, IndexRow>, postings: map<(int, int), string>, elementId: int, siteId: int)
    : (r: map<int, IndexRow>)
    ensures r.Keys == rows.Keys
    ensures forall id :: id in r ==> r[id] == rows[id].(ngrams := r[id].ngrams)
    ensures forall id :: id in r && !BelongsTo(rows[id], elementId, siteId) ==> r[id] == rows[id]
    ensures forall id :: id in r && PostingCount(postings, id) == 0 ==> r[id] == rows[id]
    ensures forall id :: id in r && BelongsTo(rows[id], elementId, siteId) && PostingCount(postings, id) > 0 ==>
      r[id].ngrams == PostingCount(postings, id)
  {
    map id | id in rows :: if BelongsTo(rows[id], elementId, siteId) && PostingCount(postings, id) > 0
      then rows[id].(ngrams := PostingCount(postings, id)) else rows[id]
  }

  /**
   * What one pass leaves behind, given the rows, postings and id counter
   * before it and the latest pending value of each target `p`.
   */
  ghost predicate Reindexed(rows0: map<int, IndexRow>, postings0: map<(int, int), string>, firstId: int,
                            p: seq<QueueItem>, rows: map<int, IndexRow>, postings: map<(int, int), string>,
                            elementId: int, siteId: int, lib: TextLib, intl: bool)
    requires TablesValid(rows0, postings0, firstId)
  {
    var im := TargetIndex(rows0, elementId, siteId);
    // Rows of other elements or sites are untouched.
    && (forall id :: id in rows0 && !BelongsTo(rows0[id], elementId, siteId) ==> id in rows && rows[id] == rows0[id])
    // An existing row of the element survives exactly when its target was queued.
    && (forall id :: id in rows0 && BelongsTo(rows0[id], elementId, siteId) ==>
          (id in rows <==> HasTarget(p, rows0[id].target)))
    // Each queued value has its row (the existing one for its target, else
    // firstId + offset) holding exactly its grams, counted unless there are none.
    && (forall i :: 0 <= i < |p| ==>
          var id, g := AssignedId(p, im, firstId, i), ValueGrams(lib, intl, p[i]);
          && id in rows && BelongsTo(rows[id], elementId, siteId) && rows[id].target == p[i].target
          && HoldsGrams(postings, id, g)
          && rows[id].ngrams == if |g| > 0 then |g| else if id in rows0 then rows0[id].ngrams else 0)
    // The element's rows are exactly those of the queued values.
    && (forall id :: id in rows && BelongsTo(rows[id], elementId, siteId) ==>
          exists i :: 0 <= i < |p| && id == AssignedId(p, im, firstId, i))
    && (forall id :: id in rows && id !in rows0 ==> BelongsTo(rows[id], elementId, siteId))
    // Postings of other elements or sites are untouched; no others remain.
    && (forall k :: k in postings0 && !BelongsTo(rows0[k.0], elementId, siteId) ==>
          k in postings && postings[k] == postings0[k])
    && (forall k :: k in postings ==>
          (exists i :: 0 <= i < |p| && k.0 == AssignedId(p, im, firstId, i))
          || (k in postings0 && !BelongsTo(rows0[k.0], elementId, siteId)))
  }

  /** The ids the slots resolve to are the assigned ids, and they are distinct. */
  lemma SlotsResolve(p: seq<QueueItem>, im: map<Target, int>, slots: seq<Slot>, firstId: int,
                     rows0: map<int, IndexRow>, elementId: int, siteId: int)
    requires UniqueTargets(rows0) && (forall id :: id in rows0 ==> id < firstId)
    requires im == TargetIndex(rows0, elementId, siteId)
    requires DistinctTargets(p)
    requires slots == Slots(p, im, |p|)
    ensures |slots| == |p|
    ensures forall i :: 0 <= i < |p| ==> SlotId(slots[i], firstId) == AssignedId(p, im, firstId, i)
    ensures forall i, j :: 0 <= i < j < |p| ==> SlotId(slots[i], firstId) != SlotId(slots[j], firstId)
  {
    assert forall t :: t in im ==> im[t] < firstId;
    assert forall t, u :: t in im && u in im && im[t] == im[u] ==> t == u;
    if |p| > 0 {
      SlotAt(p, im, |p|, 0);
    }
    forall i | 0 <= i < |p|
      ensures i < |slots| && SlotId(slots[i], firstId) == AssignedId(p, im, firstId, i)
    {
      SlotAt(p, im, |p|, i);
    }
    forall i, j | 0 <= i < j < |p|
      ensures AssignedId(p, im, firstId, i) != AssignedId(p, im, firstId, j)
    {
      AssignedIdsDistinct(p, im, firstId, i, j);
    }
  }

  /**
   * The tables after a pass, given those before it, the first id of the
   * batch insert and the postings built: the staged rows get the next ids,
   * the element's postings are rebuilt, its unqueued rows go and its rows
   * are recounted.
   */
  ghost predicate PassSteps(rows0: map<int, IndexRow>, postings0: map<(int, int), string>, firstId: int,
                            p: seq<QueueItem>, newData: map<(int, int), string>,
                            rows: map<int, IndexRow>, postings: map<(int, int), string>,
                            elementId: int, siteId: int, lib: TextLib, intl: bool)
  {
    && TablesValid(rows0, postings0, firstId)
    && DistinctTargets(p)
    && var im := TargetIndex(rows0, elementId, siteId);
       var rows1 := rows0 + Batch(elementId, siteId, StagedTargets(p, im, |p|), firstId);
       && (forall i :: 0 <= i < |p| ==> HoldsGrams(newData, AssignedId(p, im, firstId, i), ValueGrams(lib, intl, p[i])))
       && (forall k :: k in newData ==> exists i :: 0 <= i < |p| && k.0 == AssignedId(p, im, firstId, i))
       && (forall k :: k in newData ==> k.1 >= 0 && |newData[k]| == 3)
       && postings == DropPostings(postings0, RowsOf(rows1, elementId, siteId)) + newData
       && rows == CountedRows(DropRows(rows1, RowsOf(rows0, elementId, siteId) - ReusedIds(p, im, |p|)),
                              postings, elementId, siteId)
  }

  /** The intermediate row tables of a pass are related as `RowSteps` says. */
  lemma PassRowSteps(rows0: map<int, IndexRow>, postings0: map<(int, int), string>, firstId: int,
                     p: seq<QueueItem>, newData: map<(int, int), string>,
                     rows: map<int, IndexRow>, postings: map<(int, int), string>,
                     elementId: int, siteId: int, lib: TextLib, intl: bool)
    requires PassSteps(rows0, postings0, firstId, p, newData, rows, postings, elementId, siteId, lib, intl)
    ensures var im := TargetIndex(rows0, elementId, siteId);
      var rows1 := rows0 + Batch(elementId, siteId, StagedTargets(p, im, |p|), firstId);
      var del := RowsOf(rows0, elementId, siteId) - ReusedIds(p, im, |p|);
      RowSteps(rows0, rows1, DropRows(rows1, del), rows, p, im, firstId, elementId, siteId, del)
  {
    var im := TargetIndex(rows0, elementId, siteId);
    StagedTargetsLength(p, im, |p|);
  }

  /** A pass keeps the tables valid, with the id counter past the batch. */
  lemma PassValid(rows0: map<int, IndexRow>, postings0: map<(int, int), string>, firstId: int,
                  p: seq<QueueItem>, newData: map<(int, int), string>,
                  rows: map<int, IndexRow>, postings: map<(int, int), string>,
                  elementId: int, siteId: int, lib: TextLib, intl: bool)
    requires PassSteps(rows0, postings0, firstId, p, newData, rows, postings, elementId, siteId, lib, intl)
    ensures TablesValid(rows, postings, firstId + StagedBefore(p, TargetIndex(rows0, elementId, siteId), |p|))
  {
    var im := TargetIndex(rows0, elementId, siteId);
    var rows1 := rows0 + Batch(elementId, siteId, StagedTargets(p, im, |p|), firstId);
    var del := RowsOf(rows0, elementId, siteId) - ReusedIds(p, im, |p|);
    var rows2 := DropRows(rows1, del);
    PassRowSteps(rows0, postings0, firstId, p, newData, rows, postings, elementId, siteId, lib, intl);
    RowsBounded(rows0, rows1, rows2, rows, p, im, firstId, elementId, siteId, del);
    RowsSurvive(rows0, rows1, rows2, rows, p, im, firstId, elementId, siteId, del);
    RowsUnique(rows0, rows1, rows2, rows, p, im, firstId, elementId, siteId, del);
    var batch := Batch(elementId, siteId, StagedTargets(p, im, |p|), firstId);
    forall id | id in rows1
      ensures rows1[id].ngrams >= 0
    {
      if id !in rows0 {
        assert id in batch;
      }
    }
    assert rows == CountedRows(rows2, postings, elementId, siteId);
    forall id | id in rows
      ensures rows[id].ngrams >= 0
    {
      assert id in rows2 && rows2[id] == rows1[id];
      if PostingCount(postings, id) == 0 || !BelongsTo(rows2[id], elementId, siteId) {
        assert rows[id] == rows2[id];
      }
    }
    forall k | k in postings
      ensures k.0 in rows && k.1 >= 0 && |postings[k]| == 3
    {
      var id := k.0;
      var postings1 := DropPostings(postings0, RowsOf(rows1, elementId, siteId));
      assert postings == postings1 + newData;
      if k in newData {
        assert postings[k] == newData[k];
      } else {
        assert k in postings1 && postings[k] == postings1[k] == postings0[k];
        assert id in rows0;
        assert id !in RowsOf(rows1, elementId, siteId);
      }
    }
  }

  /** A pass leaves the tables as `Reindexed` says. */
  lemma PassReindexes(rows0: map<int, IndexRow>, postings0: map<(int, int), string>, firstId: int,
                      p: seq<QueueItem>, newData: map<(int, int), string>,
                      rows: map<int, IndexRow>, postings: map<(int, int), string>,
                      elementId: int, siteId: int, lib: TextLib, intl: bool)
    requires PassSteps(rows0, postings0, firstId, p, newData, rows, postings, elementId, siteId, lib, intl)
    ensures Reindexed(rows0, postings0, firstId, p, rows, postings, elementId, siteId, lib, intl)
  {
    var im := TargetIndex(rows0, elementId, siteId);
    var rows1 := rows0 + Batch(elementId, siteId, StagedTargets(p, im, |p|), firstId);
    var del := RowsOf(rows0, elementId, siteId) - ReusedIds(p, im, |p|);
    var rows2 := DropRows(rows1, del);
    var postings1 := DropPostings(postings0, RowsOf(rows1, elementId, siteId));
    PassRowSteps(rows0, postings0, firstId, p, newData, rows, postings, elementId, siteId, lib, intl);
    RowsBounded(rows0, rows1, rows2, rows, p, im, firstId, elementId, siteId, del);
    RowsSurvive(rows0, rows1, rows2, rows, p, im, firstId, elementId, siteId, del);
    RowsAssigned(rows0, rows1, rows2, rows, p, im, firstId, elementId, siteId, del);
    PassPostings(rows0, postings0, firstId, p, newData, rows, postings, elementId, siteId, lib, intl);
    forall i | 0 <= i < |p|
      ensures var id, g := AssignedId(p, im, firstId, i), ValueGrams(lib, intl, p[i]);
        && id in rows && BelongsTo(rows[id], elementId, siteId) && rows[id].target == p[i].target
        && HoldsGrams(postings, id, g)
        && rows[id].ngrams == if |g| > 0 then |g| else if id in rows0 then rows0[id].ngrams else 0
    {
      PassAssignsRow(rows0, postings0, firstId, p, newData, rows, postings, elementId, siteId, lib, intl, i);
    }
  }

  /** After a pass, the other elements' postings are untouched and no others remain. */
  lemma PassPostings(rows0: map<int, IndexRow>, postings0: map<(int, int), string>, firstId: int,
                     p: seq<QueueItem>, newData: map<(int, int), string>,
                     rows: map<int, IndexRow>, postings: map<(int, int), string>,
                     elementId: int, siteId: int, lib: TextLib, intl: bool)
    requires PassSteps(rows0, postings0, firstId, p, newData, rows, postings, elementId, siteId, lib, intl)
    ensures forall k :: k in postings0 && !BelongsTo(rows0[k.0], elementId, siteId) ==>
      k in postings && postings[k] == postings0[k]
    ensures forall k :: k in postings ==>
      (exists i :: 0 <= i < |p| && k.0 == AssignedId(p, TargetIndex(rows0, elementId, siteId), firstId, i))
      || (k in postings0 && !BelongsTo(rows0[k.0], elementId, siteId))
  {
    var im := TargetIndex(rows0, elementId, siteId);
    var rows1 := rows0 + Batch(elementId, siteId, StagedTargets(p, im, |p|), firstId);
    var postings1 := DropPostings(postings0, RowsOf(rows1, elementId, siteId));
    PassRowSteps(rows0, postings0, firstId, p, newData, rows, postings, elementId, siteId, lib, intl);
    NewDataOfElement(rows0, p, im, firstId, elementId, siteId, newData);
    PostingsOthers(rows0, rows1, rows, postings0, postings1, newData, postings, elementId, siteId);
  }

  /** The queued value `p[i]` ends up in its assigned row, which holds exactly its grams. */
  lemma PassAssignsRow(rows0: map<int, IndexRow>, postings0: map<(int, int), string>, firstId: int,
                       p: seq<QueueItem>, newData: map<(int, int), string>,
                       rows: map<int, IndexRow>, postings: map<(int, int), string>,
                       elementId: int, siteId: int, lib: TextLib, intl: bool, i: int)
    requires PassSteps(rows0, postings0, firstId, p, newData, rows, postings, elementId, siteId, lib, intl)
    requires 0 <= i < |p|
    ensures var id, g := AssignedId(p, TargetIndex(rows0, elementId, siteId), firstId, i), ValueGrams(lib, intl, p[i]);
      && id in rows && BelongsTo(rows[id], elementId, siteId) && rows[id].target == p[i].target
      && HoldsGrams(postings, id, g)
      && rows[id].ngrams == if |g| > 0 then |g| else if id in rows0 then rows0[id].ngrams else 0
  {
    var im := TargetIndex(rows0, elementId, siteId);
    var rows1 := rows0 + Batch(elementId, siteId, StagedTargets(p, im, |p|), firstId);
    var del := RowsOf(rows0, elementId, siteId) - ReusedIds(p, im, |p|);
    var rows2 := DropRows(rows1, del);
    var postings1 := DropPostings(postings0, RowsOf(rows1, elementId, siteId));
    PassRowSteps(rows0, postings0, firstId, p, newData, rows, postings, elementId, siteId, lib, intl);
    RowsSurvive(rows0, rows1, rows2, rows, p, im, firstId, elementId, siteId, del);
    NewDataOfElement(rows0, p, im, firstId, elementId, siteId, newData);
    var id, g := AssignedId(p, im, firstId, i), ValueGrams(lib, intl, p[i]);
    AssignedRow(rows0, p, im, firstId, elementId, siteId, i);
    HoldsGramsUnion(postings1, newData, id, g);
    PostingCountOfGrams(postings, id, g);
    assert rows == CountedRows(rows2, postings, elementId, siteId);
    assert id in rows2 && rows2[id] == rows1[id];
    if |g| == 0 {
      assert rows[id] == rows2[id];
    }
  }

  // ---------------------------------------------------------------------
  // The tables

  class NgramIndex {
    var queue: seq<QueueItem>
    var rows: map<int, IndexRow>
    var postings: map<(int, int), string>
    /** The next auto-increment id of reliquary_ngramindex. */
    var nextId: int

    ghost predicate Valid()
      reads this`rows, this`postings, this`nextId
    {
      TablesValid(rows, postings, nextId)
    }

    constructor ()
      ensures Valid()
      ensures queue == [] && rows == map[] && postings == map[] && nextId == 1
    {
      queue := [];
      rows := map[];
      postings := map[];
      nextId := 1;
    }

    /** Lines 125-151: `$indexMap` (first row per target wins) and `$indexesToDelete` (every row). */
    method IndexMapFor(elementId: int, siteId: int) returns (indexMap: map<Target, int>, indexesToDelete: set<int>)
      requires Valid()
      ensures indexMap == TargetIndex(rows, elementId, siteId)
      ensures indexesToDelete == RowsOf(rows, elementId, siteId)
    {
      var indexIds := RowsOf(rows, elementId, siteId);
      indexMap := map[];
      // The rows come back in id order.
      var id := 1;
      while id < nextId
        invariant 1 <= id <= nextId
        invariant forall t :: t in indexMap ==> indexMap[t] in indexIds && indexMap[t] < id && rows[indexMap[t]].target == t
        invariant forall x :: x in indexIds && x < id ==> rows[x].target in indexMap && indexMap[rows[x].target] == x
      {
        if id in indexIds {
          var key := rows[id].target;
          if key !in indexMap {
            indexMap := indexMap[key := id];
          }
        }
        id := id + 1;
      }
      TargetIndexUnique(rows, elementId, siteId, indexMap);
      indexesToDelete := indexIds;
    }

    /** Lines 171-182: insert the staged rows in one batch and report the first new id. */
    method InsertIndexRows(elementId: int, siteId: int, newIndexes: seq<Target>) returns (firstId: int)
      modifies this`rows, this`nextId
      ensures firstId == old(nextId) && nextId == old(nextId) + |newIndexes|
      ensures rows == old(rows) + Batch(elementId, siteId, newIndexes, firstId)
    {
      firstId := nextId;
      rows := rows + Batch(elementId, siteId, newIndexes, firstId);
      nextId := nextId + |newIndexes|;
    }

    /** Lines 185-215: delete every posting of the element's rows on the site. */
    method DeleteElementPostings(elementId: int, siteId: int)
      modifies this`postings
      ensures postings == DropPostings(old(postings), RowsOf(rows, elementId, siteId))
    {
      postings := DropPostings(postings, RowsOf(rows, elementId, siteId));
    }

    /** Lines 217-224: delete the rows left in `$indexesToDelete`, if any. */
    method DeleteIndexRows(indexesToDelete: set<int>)
      modifies this`rows
      ensures rows == DropRows(old(rows), indexesToDelete)
    {
      if |indexesToDelete| > 0 {
        rows := DropRows(rows, indexesToDelete);
      } else {
        assert rows == DropRows(rows, indexesToDelete);
      }
    }

    /** Lines 244-251: the batch insert of the new postings. */
    method InsertPostings(newData: map<(int, int), string>)
      modifies this`postings
      ensures postings == old(postings) + newData
    {
      postings := postings + newData;
    }

    /** Lines 253-295: the element's rows take their new posting counts. */
    method UpdateNgramCounts(elementId: int, siteId: int)
      modifies this`rows
      ensures rows == CountedRows(old(rows), postings, elementId, siteId)
    {
      rows := CountedRows(rows, postings, elementId, siteId);
    }

    /** `clearPendingIndexQueue`: drop the queued values of one element on one site. */
    method ClearPendingIndexQueue(elementId: int, siteId: int)
      modifies this`queue
      ensures queue == WithoutElement(old(queue), elementId, siteId)
    {
      queue := WithoutElement(queue, elementId, siteId);
    }

    /** `deleteIndexDataForElement`: drop the element's index rows on every site, with their postings. */
    method DeleteIndexDataForElement(elementId: int)
      requires Valid()
      modifies this`rows, this`postings
      ensures Valid()
      ensures forall id :: id in rows <==> id in old(rows) && old(rows)[id].elementId != elementId
      ensures forall id :: id in rows ==> rows[id] == old(rows)[id]
      ensures forall k :: k in postings <==> k in old(postings) && old(rows)[k.0].elementId != elementId
      ensures forall k :: k in postings ==> postings[k] == old(postings)[k]
    {
      var ids := set id | id in rows && rows[id].elementId == elementId;
      postings := DropPostings(postings, ids);
      rows := DropRows(rows, ids);
      forall k | k in postings
        ensures k.0 in rows
      {
        var id := k.0;
        assert id in old(rows) && id !in ids;
      }
    }

    /** `clearIndexTables`: empty the index rows and postings. */
    method ClearIndexTables()
      requires Valid()
      modifies this`rows, this`postings
      ensures Valid()
      ensures rows == map[] && postings == map[]
    {
      rows := map[];
      postings := map[];
    }

    /**
     * `processElementIndex(elementId, siteId)` (src/helpers/Search.php:95-303):
     * index the latest queued value of each target of the element on the
     * site, reusing the index row already kept for that target, and clear
     * the element's queue.
     */
    method ProcessElementIndex(elementId: int, siteId: int, lib: TextLib, intl: bool)
      requires Valid()
      modifies this
      ensures Valid()
      // Nothing queued: nothing changes, not even the queue.
      ensures Pending(old(queue), elementId, siteId) == [] ==>
        queue == old(queue) && rows == old(rows) && postings == old(postings) && nextId == old(nextId)
      ensures var p := Pending(old(queue), elementId, siteId);
        p != [] ==>
          && nextId == old(nextId) + StagedBefore(p, TargetIndex(old(rows), elementId, siteId), |p|)
          && Reindexed(old(rows), old(postings), old(nextId), p, rows, postings, elementId, siteId, lib, intl)
      // The queue of the element is cleared last.
      ensures queue == WithoutElement(old(queue), elementId, siteId)
    {
      var indexValues := Pending(queue, elementId, siteId);
      if indexValues == [] {
        NothingPending(queue, elementId, siteId);
        return;
      }
      ReindexPending(elementId, siteId, indexValues, lib, intl);
      ClearPendingIndexQueue(elementId, siteId);
    }

    /** Lines 120-295: the pass over the pending values of one element, which leaves the queue alone. */
    method ReindexPending(elementId: int, siteId: int, indexValues: seq<QueueItem>, lib: TextLib, intl: bool)
      requires Valid() && indexValues == Pending(queue, elementId, siteId) && indexValues != []
      modifies this`rows, this`postings, this`nextId
      ensures Valid()
      ensures nextId == old(nextId) + StagedBefore(indexValues, TargetIndex(old(rows), elementId, siteId), |indexValues|)
      ensures Reindexed(old(rows), old(postings), old(nextId), indexValues, rows, postings, elementId, siteId, lib, intl)
    {
      PendingDistinct(queue, elementId, siteId);
      ghost var rows0, postings0 := rows, postings;

      var indexMap, indexesToDelete := IndexMapFor(elementId, siteId);
      var slots, newIndexes;
      slots, newIndexes, indexesToDelete := StageValues(indexValues, indexMap, indexesToDelete);
      SlotsResolve(indexValues, indexMap, slots, nextId, rows, elementId, siteId);
      StagedTargetsLength(indexValues, indexMap, |indexValues|);

      // MySQL reports the first id of a multi-row insert.
      var firstId := InsertIndexRows(elementId, siteId, newIndexes);
      ghost var lastId := nextId;
      assert lastId == firstId + StagedBefore(indexValues, TargetIndex(rows0, elementId, siteId), |indexValues|);
      DeleteElementPostings(elementId, siteId);
      DeleteIndexRows(indexesToDelete);
      var newData := BuildPostings(indexValues, slots, firstId, lib, intl);
      InsertPostings(newData);
      UpdateNgramCounts(elementId, siteId);

      assert nextId == lastId;
      assert PassSteps(rows0, postings0, firstId, indexValues, newData, rows, postings, elementId, siteId, lib, intl);
      PassValid(rows0, postings0, firstId, indexValues, newData, rows, postings, elementId, siteId, lib, intl);
      PassReindexes(rows0, postings0, firstId, indexValues, newData, rows, postings, elementId, siteId, lib, intl);
    }
  }
}
