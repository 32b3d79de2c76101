/**
 * The plugin's own tables of search groups, group elements and group
 * filters (src/migrations/Install.php), and the models that the
 * `createModel` functions of records classes copy out of their rows.
 *
 * PHP's models hold `null` in `id` before the first save and may hold
 * `null` in `sortOrder`. Every place the services look at these two
 * (`if ($model->id)`, `$model->sortOrder == null`, the comparator
 * `$a->sortOrder - $b->sortOrder`) treats `null` exactly as `0`, so both
 * are integers here and `0` stands for `null`.
 */
module Records {
  import opened Optional

  /** A search group (models/SearchGroup.php), as cached and as stored. */
  datatype Group = Group(
    id: int, siteId: int, handle: string, name: string, template: string,
    pageSize: int, searchOrder: string, sortOrder: int)

  /** A filter a group offers (models/SearchGroupFilter.php): one field or one attribute. */
  datatype Filter = Filter(
    id: int, groupId: int, fieldId: Option<int>, attribute: Option<string>,
    handle: string, name: string, sortOrder: int)

  /** An element type a group searches (models/SearchGroupElement.php). */
  datatype Element = Element(
    id: int, groupId: int, elementType: string, elementTypeId: Option<int>, sortOrder: int)

  /** The sort order a save gives a model that has none. */
  const UnsetSortOrder: int := 999

  /**
   * The exceptions the repositories throw. The element repository names
   * `SearchGroupModelNotFoundException`, a class the plugin does not
   * define, so PHP raises a class-not-found error at that point instead;
   * either way the save ends in an exception.
   */
  datatype ServiceError =
    | SearchGroupNotFound(groupId: int)
    | SearchGroupFilterNotFound(filterId: int)
    | SearchGroupElementNotFound(elementId: int)
      /** PHP's `TypeError` for `null` passed where a `SearchGroup` is declared. */
    | NullGroupArgument
      /** PHP's `Error` for a property written on the `null` that `one()` returns when no row matches. */
    | NullRecord(id: int)

  /** The ids of the models in a cached set (`array_map(fn => $m->id, ...)`). */
  function ModelIds<T>(entries: seq<(int, T)>, idOf: T -> int): (r: seq<int>)
    ensures |r| == |entries|
    ensures forall k :: 0 <= k < |r| ==> r[k] == idOf(entries[k].1)
  {
    if entries == [] then [] else [idOf(entries[0].1)] + ModelIds(entries[1..], idOf)
  }

  /**
   * The keys of a table below `bound`, ascending: the order in which the
   * queries of the services meet the rows (their primary-key order).
   */
  function IdsBelow<T>(table: map<int, T>, bound: int): (r: seq<int>)
    decreases bound
    ensures forall id :: id in r <==> id in table && 1 <= id < bound
    ensures forall i, j :: 0 <= i < j < |r| ==> r[i] < r[j]
  {
    if bound <= 1 then []
    else
      var front := IdsBelow(table, bound - 1);
      assert forall k :: 0 <= k < |front| ==> front[k] < bound - 1 by {
        forall k | 0 <= k < |front| ensures front[k] < bound - 1 {
          var id := front[k];
          assert id in front;
        }
      }
      front + if bound - 1 in table then [bound - 1] else []
  }

  /** `find()->where(p)->all()`: the rows among `ids` that satisfy `p`, in the order of `ids`. */
  function Select<T(==)>(table: map<int, T>, ids: seq<int>, p: T -> bool): (r: seq<T>)
    ensures forall k :: 0 <= k < |r| ==> p(r[k]) && r[k] in table.Values
    ensures forall id :: id in ids && id in table && p(table[id]) ==> table[id] in r
  {
    if ids == [] then []
    else
      var rest := Select(table, ids[1..], p);
      assert forall id :: id in ids && id != ids[0] ==> id in ids[1..];
      if ids[0] in table && p(table[ids[0]]) then [table[ids[0]]] + rest else rest
  }

  /** The three tables, as a transaction snapshot. */
  datatype Tables = Tables(groups: map<int, Group>, filters: map<int, Filter>, elements: map<int, Element>)

  /** Rows are keyed by their primary key, and every key was issued by the table's auto-increment. */
  ghost predicate KeyedBelow<T>(table: map<int, T>, idOf: T -> int, next: int)
  {
    forall id :: id in table ==> 1 <= id < next && idOf(table[id]) == id
  }

  function GroupId(g: Group): int { g.id }
  function FilterId(f: Filter): int { f.id }
  function ElementId(e: Element): int { e.id }

  ghost predicate TablesBelow(t: Tables, nextGroupId: int, nextFilterId: int, nextElementId: int)
  {
    && KeyedBelow(t.groups, GroupId, nextGroupId)
    && KeyedBelow(t.filters, FilterId, nextFilterId)
    && KeyedBelow(t.elements, ElementId, nextElementId)
  }

  /** A snapshot stays restorable while the counters only grow. */
  lemma TablesBelowGrow(t: Tables, g: int, f: int, e: int, g': int, f': int, e': int)
    requires TablesBelow(t, g, f, e) && g <= g' && f <= f' && e <= e'
    ensures TablesBelow(t, g', f', e')
  {
  }

  /** No later save in `ids` goes to the same id as save `k`. */
  ghost predicate LastWrite(ids: seq<int>, k: int)
    requires 0 <= k < |ids|
  {
    forall j :: k < j < |ids| ==> ids[j] != ids[k]
  }

  /**
   * A table after the rows of group `groupId` were deleted and `rows` were
   * saved, in order, under `ids`, each into that group: the group's rows
   * are exactly those ids, and each id holds the last row saved under it.
   */
  ghost predicate Rewritten<T>(table: map<int, T>, groupOf: T -> int, groupId: int, ids: seq<int>, rows: seq<T>)
  {
    && |ids| == |rows|
    && (forall id :: id in table && groupOf(table[id]) == groupId <==> id in ids)
    && (forall k :: 0 <= k < |ids| && LastWrite(ids, k) ==> ids[k] in table && table[ids[k]] == rows[k])
  }

  /** Nothing saved yet: the group has no rows. */
  lemma RewrittenInit<T>(table: map<int, T>, groupOf: T -> int, groupId: int)
    requires forall id :: id in table ==> groupOf(table[id]) != groupId
    ensures Rewritten(table, groupOf, groupId, [], [])
  {
  }

  /** One more save into the group. */
  lemma RewrittenStep<T>(table: map<int, T>, groupOf: T -> int, groupId: int, ids: seq<int>, rows: seq<T>, id: int, row: T)
    requires Rewritten(table, groupOf, groupId, ids, rows) && groupOf(row) == groupId
    ensures Rewritten(table[id := row], groupOf, groupId, ids + [id], rows + [row])
  {
    var ids', rows', table' := ids + [id], rows + [row], table[id := row];
    forall i | i in table' && groupOf(table'[i]) == groupId ensures i in ids' {
      if i != id {
        assert i in ids;
      }
    }
    forall i | i in ids' ensures i in table' && groupOf(table'[i]) == groupId {
      if i != id {
        assert i in ids;
      }
    }
    forall k | 0 <= k < |ids'| && LastWrite(ids', k) ensures ids'[k] in table' && table'[ids'[k]] == rows'[k] {
      if k < |ids| {
        assert ids'[k] != id by {
          assert ids'[|ids|] == id;
        }
        assert LastWrite(ids, k) by {
          forall j | k < j < |ids| ensures ids[j] != ids[k] {
            assert ids'[j] == ids[j];
          }
        }
      }
    }
  }

  /**
   * `Rewritten`, and what became of the rows `deleted` held before the
   * group's rows were deleted: the group's own rows stay gone, and rows of
   * other groups that were not saved again keep their values.
   */
  ghost predicate Resaved<T>(table: map<int, T>, deleted: map<int, T>, groupOf: T -> int, groupId: int,
                             ids: seq<int>, rows: seq<T>)
  {
    && Rewritten(table, groupOf, groupId, ids, rows)
    && (forall id :: id in deleted && groupOf(deleted[id]) == groupId ==> id !in table)
    && (forall id :: id in deleted && groupOf(deleted[id]) != groupId && id !in ids ==>
          id in table && table[id] == deleted[id])
  }

  /** Right after the delete nothing is saved yet. */
  lemma ResavedInit<T>(table: map<int, T>, deleted: map<int, T>, groupOf: T -> int, groupId: int)
    requires table == map id | id in deleted && groupOf(deleted[id]) != groupId :: deleted[id]
    ensures Resaved(table, deleted, groupOf, groupId, [], [])
  {
    RewrittenInit(table, groupOf, groupId);
  }

  /**
   * One more save into the group, under an id that is either a row of the
   * table (an update) or one the delete never saw (an insert).
   */
  lemma ResavedStep<T>(table: map<int, T>, deleted: map<int, T>, groupOf: T -> int, groupId: int,
                       ids: seq<int>, rows: seq<T>, id: int, row: T)
    requires Resaved(table, deleted, groupOf, groupId, ids, rows) && groupOf(row) == groupId
    requires id in table || id !in deleted
    ensures id in deleted ==> groupOf(deleted[id]) != groupId
    ensures Resaved(table[id := row], deleted, groupOf, groupId, ids + [id], rows + [row])
  {
    RewrittenStep(table, groupOf, groupId, ids, rows, id, row);
    var table' := table[id := row];
    forall d | d in deleted && groupOf(deleted[d]) != groupId && d !in ids + [id]
      ensures d in table' && table'[d] == deleted[d]
    {
      assert d !in ids;
    }
  }

  /**
   * The database the services share. An insert takes the next value of
   * the table's auto-increment counter; a rolled-back transaction restores
   * the rows but, as in MySQL, not the counters.
   */
  class Database {
    var groups: map<int, Group>
    var filters: map<int, Filter>
    var elements: map<int, Element>
    var nextGroupId: int
    var nextFilterId: int
    var nextElementId: int

    ghost predicate Valid()
      reads this
    {
      && 1 <= nextGroupId && 1 <= nextFilterId && 1 <= nextElementId
      && TablesBelow(Snapshot(), nextGroupId, nextFilterId, nextElementId)
    }

    constructor ()
      ensures Valid()
      ensures groups == map[] && filters == map[] && elements == map[]
    {
      groups, filters, elements := map[], map[], map[];
      nextGroupId, nextFilterId, nextElementId := 1, 1, 1;
    }

    /** `beginTransaction`: what a rollback returns to. */
    function Snapshot(): (t: Tables)
      reads this
      ensures t.groups == groups && t.filters == filters && t.elements == elements
    {
      Tables(groups, filters, elements)
    }

    /** `rollBack`: the rows as they were at the snapshot. */
    method Rollback(t: Tables)
      requires Valid()
      requires TablesBelow(t, nextGroupId, nextFilterId, nextElementId)
      modifies this`groups, this`filters, this`elements
      ensures Valid()
      ensures Snapshot() == t
    {
      groups, filters, elements := t.groups, t.filters, t.elements;
    }

    /** `$record->save()` on a search group: an update when it has an id, else an insert. */
    method SaveGroup(g: Group) returns (id: int)
      requires Valid()
      requires g.id != 0 ==> g.id in groups
      modifies this`groups, this`nextGroupId
      ensures Valid()
      ensures g.id != 0 ==> id == g.id && nextGroupId == old(nextGroupId)
      ensures g.id == 0 ==> id == old(nextGroupId) && nextGroupId == id + 1 && id !in old(groups)
      ensures groups == old(groups)[id := g.(id := id)]
    {
      if g.id != 0 {
        id := g.id;
      } else {
        id := nextGroupId;
        nextGroupId := nextGroupId + 1;
      }
      groups := groups[id := g.(id := id)];
    }

    /** `$record->save()` on a group filter. */
    method SaveFilter(f: Filter) returns (id: int)
      requires Valid()
      requires f.id != 0 ==> f.id in filters
      modifies this`filters, this`nextFilterId
      ensures Valid()
      ensures f.id != 0 ==> id == f.id && nextFilterId == old(nextFilterId)
      ensures f.id == 0 ==> id == old(nextFilterId) && nextFilterId == id + 1 && id !in old(filters)
      ensures filters == old(filters)[id := f.(id := id)]
    {
      if f.id != 0 {
        id := f.id;
      } else {
        id := nextFilterId;
        nextFilterId := nextFilterId + 1;
      }
      filters := filters[id := f.(id := id)];
    }

    /** `$record->save()` on a group element. */
    method SaveElement(e: Element) returns (id: int)
      requires Valid()
      requires e.id != 0 ==> e.id in elements
      modifies this`elements, this`nextElementId
      ensures Valid()
      ensures e.id != 0 ==> id == e.id && nextElementId == old(nextElementId)
      ensures e.id == 0 ==> id == old(nextElementId) && nextElementId == id + 1 && id !in old(elements)
      ensures elements == old(elements)[id := e.(id := id)]
    {
      if e.id != 0 {
        id := e.id;
      } else {
        id := nextElementId;
        nextElementId := nextElementId + 1;
      }
      elements := elements[id := e.(id := id)];
    }

    /**
     * `delete(searchgroups, ['id' => $id])`: the foreign keys of the group
     * elements and group filters cascade, so the group's rows go with it.
     */
    method DeleteGroup(id: int)
      requires Valid()
      modifies this`groups, this`elements, this`filters
      ensures Valid()
      ensures groups == old(groups) - {id}
      ensures elements == map e | e in old(elements) && old(elements)[e].groupId != id :: old(elements)[e]
      ensures filters == map f | f in old(filters) && old(filters)[f].groupId != id :: old(filters)[f]
    {
      groups := groups - {id};
      elements := map e | e in elements && elements[e].groupId != id :: elements[e];
      filters := map f | f in filters && filters[f].groupId != id :: filters[f];
    }

    /** `delete(searchgroupelements, ['groupId' => $groupId])`. */
    method DeleteElementsOfGroup(groupId: int)
      requires Valid()
      modifies this`elements
      ensures Valid()
      ensures elements == map id | id in old(elements) && old(elements)[id].groupId != groupId :: old(elements)[id]
    {
      elements := map id | id in elements && elements[id].groupId != groupId :: elements[id];
    }

    /** `delete(searchgroupfilters, ['groupId' => $groupId])`. */
    method DeleteFiltersOfGroup(groupId: int)
      requires Valid()
      modifies this`filters
      ensures Valid()
      ensures filters == map id | id in old(filters) && old(filters)[id].groupId != groupId :: old(filters)[id]
    {
      filters := map id | id in filters && filters[id].groupId != groupId :: filters[id];
    }
  }
}
