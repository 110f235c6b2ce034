/**
 * What the policy, alert and incident collections share: the audit-trail entry their
 * histories hold, a collection kept in insertion order whose unique indexes refuse a
 * write, and the `findById` / `deleteOne` handler every controller repeats.
 */
module Documents {
  import opened Wrappers
  import opened Text
  import opened Http
  import opened Collections

  /** An entry of a `history` array. A hook-made entry carries no user. */
  datatype HistoryEntry = HistoryEntry(user: Option<string>, action: string, timestamp: nat)

  /** An optional string path declared `trim: true`. */
  function TrimmedText(v: Option<string>): (r: Option<string>)
    ensures r.Some? <==> v.Some?
    ensures v.Some? ==> r.value == Trim(v.value)
  {
    if v.Some? then Some(Trim(v.value)) else None
  }

  /** A string-array path whose elements are declared `trim: true, lowercase: true` (the `tags` paths). */
  function NormalizeEach(v: seq<string>): (r: seq<string>)
    ensures |r| == |v|
    ensures forall k :: 0 <= k < |v| ==> r[k] == Normalize(v[k])
  {
    if v == [] then [] else [Normalize(v[0])] + NormalizeEach(v[1..])
  }

  /**
   * Whether writing `d` over position `skip` (or as a new document when `skip` is -1) violates
   * a unique index; `sameKey` says which two documents the indexes keep apart.
   */
  predicate Clashes<D>(docs: seq<D>, d: D, skip: int, sameKey: (D, D) -> bool) {
    exists j :: 0 <= j < |docs| && j != skip && sameKey(docs[j], d)
  }

  /** No two documents share a key. */
  ghost predicate Distinct<D>(docs: seq<D>, sameKey: (D, D) -> bool) {
    forall i, j :: 0 <= i < |docs| && 0 <= j < |docs| && i != j ==> !sameKey(docs[i], docs[j])
  }

  /** A collection of documents, in insertion order. */
  class Collection<D> {
    var docs: seq<D>

    constructor ()
      ensures docs == []
    {
      docs := [];
    }

    /** `findOne(filter)` / `findById(id)`: the first stored document the filter accepts. */
    method Find(p: D -> bool) returns (index: int)
      ensures -1 <= index < |docs|
      ensures index == -1 <==> FirstIndex(docs, p).None?
      ensures 0 <= index ==> FirstIndex(docs, p) == Some(index)
    {
      index := FindIndex(docs, p);
    }

    /** Inserting a new document; refused (E11000) when a unique index would be violated. */
    method Insert(d: D, sameKey: (D, D) -> bool) returns (ok: bool)
      modifies this
      ensures ok == !Clashes(old(docs), d, -1, sameKey)
      ensures docs == if ok then old(docs) + [d] else old(docs)
    {
      if Clashes(docs, d, -1, sameKey) {
        return false;
      }
      docs := docs + [d];
      ok := true;
    }

    /** Writing back the document at position `k`; refused when a unique index would be violated. */
    method Replace(k: nat, d: D, sameKey: (D, D) -> bool) returns (ok: bool)
      requires k < |docs|
      modifies this
      ensures ok == !Clashes(old(docs), d, k, sameKey)
      ensures docs == if ok then old(docs)[k := d] else old(docs)
    {
      if Clashes(docs, d, k, sameKey) {
        return false;
      }
      docs := docs[k := d];
      ok := true;
    }

    /** `deleteOne()` on the document at position `k`. */
    method Remove(k: nat)
      requires k < |docs|
      modifies this
      ensures docs == old(docs)[..k] + old(docs)[k + 1..]
    {
      docs := docs[..k] + docs[k + 1..];
    }
  }

  /** Appending a document that clashes with none keeps the keys distinct. */
  lemma InsertKeepsDistinct<D>(docs: seq<D>, d: D, sameKey: (D, D) -> bool)
    requires Distinct(docs, sameKey) && !Clashes(docs, d, -1, sameKey)
    requires forall x, y :: sameKey(x, y) == sameKey(y, x)
    ensures Distinct(docs + [d], sameKey)
  {
    var s := docs + [d];
    forall i, j | 0 <= i < |s| && 0 <= j < |s| && i != j ensures !sameKey(s[i], s[j]) {
      if j == |docs| {
        assert s[i] == docs[i] && !sameKey(docs[i], d);
      } else if i == |docs| {
        assert s[j] == docs[j] && !sameKey(docs[j], d);
        assert sameKey(d, docs[j]) == sameKey(docs[j], d);
      } else {
        assert s[i] == docs[i] && s[j] == docs[j];
      }
    }
  }

  /** Overwriting position `k` with a document that clashes with no other keeps the keys distinct. */
  lemma ReplaceKeepsDistinct<D>(docs: seq<D>, k: nat, d: D, sameKey: (D, D) -> bool)
    requires k < |docs| && Distinct(docs, sameKey) && !Clashes(docs, d, k, sameKey)
    requires forall x, y :: sameKey(x, y) == sameKey(y, x)
    ensures Distinct(docs[k := d], sameKey)
  {
    var s := docs[k := d];
    forall i, j | 0 <= i < |s| && 0 <= j < |s| && i != j ensures !sameKey(s[i], s[j]) {
      if j == k {
        assert !sameKey(docs[i], d);
      } else if i == k {
        assert !sameKey(docs[j], d);
        assert sameKey(d, docs[j]) == sameKey(docs[j], d);
      }
    }
  }

  /** Removing a document keeps the keys distinct. */
  lemma RemoveKeepsDistinct<D>(docs: seq<D>, k: nat, sameKey: (D, D) -> bool)
    requires k < |docs| && Distinct(docs, sameKey)
    ensures Distinct(docs[..k] + docs[k + 1..], sameKey)
  {
    var s := docs[..k] + docs[k + 1..];
    assert forall i :: 0 <= i < |s| ==> s[i] == docs[if i < k then i else i + 1];
  }

  /**
   * `findById(id)`, then `deleteOne()`: 404 with `notFound` when no document has the id,
   * else the document goes and the answer is 200 with `deleted`.
   */
  function DeleteStep<D>(docs: seq<D>, hasId: D -> bool, notFound: string, deleted: string): (s: Step<D, string>)
    ensures s.reply.Failure? <==> forall j :: 0 <= j < |docs| ==> !hasId(docs[j])
    ensures s.reply.Failure? ==> s == Step(docs, Failure(404, notFound))
    ensures s.reply.Success? ==>
      var k := FirstIndex(docs, hasId).value;
      && hasId(docs[k])
      && |s.docs| == |docs| - 1
      && s.docs == docs[..k] + docs[k + 1..]
      && s.reply == Success(200, deleted)
  {
    match FirstIndex(docs, hasId)
    case None => Step(docs, Failure(404, notFound))
    case Some(k) => Step(docs[..k] + docs[k + 1..], Success(200, deleted))
  }

  /** With distinct ids, a deletion leaves no document with the deleted id. */
  lemma DeleteRemovesAll<D>(docs: seq<D>, hasId: D -> bool, notFound: string, deleted: string, sameKey: (D, D) -> bool)
    requires Distinct(docs, sameKey)
    requires forall x, y :: hasId(x) && hasId(y) ==> sameKey(x, y)
    ensures forall j :: 0 <= j < |DeleteStep(docs, hasId, notFound, deleted).docs| ==> !hasId(DeleteStep(docs, hasId, notFound, deleted).docs[j])
  {
    var s := DeleteStep(docs, hasId, notFound, deleted);
    if s.reply.Success? {
      var k := FirstIndex(docs, hasId).value;
      forall j | 0 <= j < |s.docs| ensures !hasId(s.docs[j]) {
        var i := if j < k then j else j + 1;
        assert s.docs[j] == docs[i] && i != k;
        assert !sameKey(docs[i], docs[k]);
      }
    }
  }

  /** The handler's steps on the collection. */
  method DeleteById<D>(store: Collection<D>, hasId: D -> bool, notFound: string, deleted: string) returns (reply: Response<string>)
    modifies store
    ensures Step(store.docs, reply) == DeleteStep(old(store.docs), hasId, notFound, deleted)
  {
    var k := store.Find(hasId);
    if k < 0 {
      return Failure(404, notFound);
    }
    store.Remove(k);
    reply := Success(200, deleted);
  }
}
