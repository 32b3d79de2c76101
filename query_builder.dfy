/**
 * LIMIT and OFFSET as the framework's query builder applies them to the
 * rows a query matches: a negative limit and an offset that is not
 * positive add no clause.
 */
module QueryBuilder {

  function Min(a: int, b: int): int { if a <= b then a else b }

  function Max(a: int, b: int): int { if a >= b then a else b }

  /** The rows of `all` a query with this offset and limit returns. */
  function Window<T>(all: seq<T>, offset: int, limit: int): (r: seq<T>)
    ensures |r| <= |all|
    ensures limit >= 0 ==> |r| <= limit
    ensures limit >= 0 ==> |r| == if Max(offset, 0) >= |all| then 0 else Min(limit, |all| - Max(offset, 0))
    ensures limit < 0 ==> |r| == if Max(offset, 0) >= |all| then 0 else |all| - Max(offset, 0)
    ensures forall k :: 0 <= k < |r| ==> r[k] == all[Max(offset, 0) + k]
  {
    var start := if offset > 0 then Min(offset, |all|) else 0;
    var end := if limit >= 0 then Min(start + limit, |all|) else |all|;
    all[start..end]
  }
}
