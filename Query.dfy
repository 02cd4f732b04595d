/** The one query shape the site-status code uses over and over:
    `db(query).select(..., limitby=(0, 1)).first()`. Tables are sequences
    of rows, and "first" means first in sequence order. */
module Query {
  import opened Wrappers

  /** Index of the first row of `rows` that satisfies `matches`, or None
      when no row does (the `.first()` of an empty selection). */
  function FirstIndex<T>(rows: seq<T>, matches: T -> bool): (r: Option<nat>)
    ensures r.Some? ==> r.value < |rows| && matches(rows[r.value])
    ensures r.Some? ==> forall k :: 0 <= k < r.value ==> !matches(rows[k])
    ensures r.None? <==> forall k :: 0 <= k < |rows| ==> !matches(rows[k])
  {
    if rows == [] then None
    else if matches(rows[0]) then Some(0)
    else match FirstIndex(rows[1..], matches)
      case None => None
      case Some(k) => Some(k + 1)
  }
}
