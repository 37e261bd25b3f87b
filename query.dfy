/**
 * Normalising the two URL search parameters of the home page:
 * `q` (the free-text query) and `item` (the item whose details are open).
 */
module Query {
  import opened Wrappers
  import opened Strings

  /** The search parameters; a missing parameter is `None`. */
  datatype SearchParams = SearchParams(q: Option<string>, item: Option<string>)

  /**
   * `sParams.q?.toLowerCase() || ''`: absent gives `''`, otherwise the
   * lower-cased query (and an empty one is falsy, which also gives `''`).
   */
  function NormaliseQuery(q: Option<string>): (r: string)
    ensures IsLower(r)
    ensures r == "" <==> q.None? || q.value == ""
    ensures q.Some? ==> r == Lower(q.value)
  {
    match q
    case None => ""
    case Some(s) =>
      var lowered := Lower(s);
      if lowered == "" then "" else lowered
  }

  /** `sParams.item || null`: a missing or empty id selects nothing. */
  function SelectedItemId(item: Option<string>): (r: Option<string>)
    ensures r.None? <==> item.None? || item.value == ""
    ensures r.Some? ==> r == item
  {
    match item
    case None => None
    case Some(id) => if id == "" then None else Some(id)
  }

  /** Normalising an already normalised query changes nothing. */
  lemma NormaliseQueryIdempotent(q: Option<string>)
    ensures NormaliseQuery(Some(NormaliseQuery(q))) == NormaliseQuery(q)
  {
    LowerOfLower(NormaliseQuery(q));
  }
}
