/**
 * Searching an ordered collection: `Model.findOne(filter)` / `Model.findById(id)` over a
 * collection kept in insertion order, and `Array.prototype.findIndex`.
 */
module Collections {
  import opened Wrappers

  /** The position of the first element that satisfies `p`, if any. */
  function FirstIndex<T>(s: seq<T>, p: T -> bool): (r: Option<nat>)
    ensures r.Some? ==> r.value < |s| && p(s[r.value])
    ensures r.Some? ==> forall j :: 0 <= j < r.value ==> !p(s[j])
    ensures r.None? <==> forall j :: 0 <= j < |s| ==> !p(s[j])
  {
    if s == [] then None
    else if p(s[0]) then Some(0)
    else
      match FirstIndex(s[1..], p)
      case None => None
      case Some(k) => Some(k + 1)
  }

  /** Whether any element satisfies `p` (a `findOne` that found a document). */
  predicate Any<T>(s: seq<T>, p: T -> bool) {
    FirstIndex(s, p).Some?
  }

  /** The first element that satisfies `p` is determined by the elements alone. */
  lemma FirstIndexUnique<T>(s: seq<T>, p: T -> bool, k: nat)
    requires k < |s| && p(s[k])
    requires forall j :: 0 <= j < k ==> !p(s[j])
    ensures FirstIndex(s, p) == Some(k)
  {
  }

  /**
   * Scans the collection front to back, as `findIndex` does: the index of the first match,
   * or -1 when nothing matches.
   */
  method FindIndex<T>(s: seq<T>, p: T -> bool) returns (index: int)
    ensures -1 <= index < |s|
    ensures index == -1 <==> FirstIndex(s, p).None?
    ensures 0 <= index ==> FirstIndex(s, p) == Some(index)
  {
    index := 0;
    while index < |s|
      invariant 0 <= index <= |s|
      invariant forall j :: 0 <= j < index ==> !p(s[j])
    {
      if p(s[index]) {
        FirstIndexUnique(s, p, index);
        return;
      }
      index := index + 1;
    }
    index := -1;
  }
}
