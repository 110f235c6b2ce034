/**
 * Partial updates. The controllers build `updateFields = { a, b, ... }` from the request body
 * and then delete every key whose value is undefined. A field is a key with a value that may
 * be undefined; the deletion loop keeps the defined ones, in their declaration order.
 */
module Patch {
  import opened Wrappers

  type Field<K, V> = (K, Option<V>)
  type Entry<K, V> = (K, V)

  function Keep<K, V>(f: Field<K, V>): seq<Entry<K, V>> {
    if f.1.Some? then [(f.0, f.1.value)] else []
  }

  /** The defined fields, in order. */
  function Defined<K, V>(fields: seq<Field<K, V>>): (kept: seq<Entry<K, V>>)
    ensures |kept| <= |fields|
    ensures forall i :: 0 <= i < |fields| && fields[i].1.Some? ==> (fields[i].0, fields[i].1.value) in kept
    ensures kept == [] <==> forall i :: 0 <= i < |fields| ==> fields[i].1.None?
  {
    if fields == [] then []
    else
      var init := fields[..|fields| - 1];
      var kept := Defined(init) + Keep(fields[|fields| - 1]);
      assert forall i :: 0 <= i < |init| ==> init[i] == fields[i];
      assert forall f :: f in init ==> f in fields;
      kept
  }

  /** Every kept entry comes from a defined field. */
  lemma {:induction false} DefinedFrom<K, V>(fields: seq<Field<K, V>>, m: nat)
    requires m < |Defined(fields)|
    ensures exists j :: 0 <= j < |fields| && fields[j] == (Defined(fields)[m].0, Some(Defined(fields)[m].1))
  {
    var n := |fields| - 1;
    var init := fields[..n];
    assert Defined(fields) == Defined(init) + Keep(fields[n]);
    if m < |Defined(init)| {
      DefinedFrom(init, m);
      var j :| 0 <= j < |init| && init[j] == (Defined(init)[m].0, Some(Defined(init)[m].1));
      assert fields[j] == init[j];
    } else {
      assert fields[n] == (Defined(fields)[m].0, Some(Defined(fields)[m].1));
    }
  }

  /** Declaring one more field adds it at the end when it is defined. */
  lemma DefinedSnoc<K, V>(fields: seq<Field<K, V>>, f: Field<K, V>)
    ensures Defined(fields + [f]) == Defined(fields) + Keep(f)
  {
    assert (fields + [f])[..|fields|] == fields;
  }

  /** The value an update gives `key`: the first entry under that key. */
  function Lookup<K(==), V>(kept: seq<Entry<K, V>>, key: K): (r: Option<V>)
    ensures r.Some? ==> (key, r.value) in kept
    ensures r.None? <==> forall i :: 0 <= i < |kept| ==> kept[i].0 != key
  {
    if kept == [] then None
    else if kept[0].0 == key then Some(kept[0].1)
    else Lookup(kept[1..], key)
  }

  lemma {:induction false} LookupAppend<K, V>(a: seq<Entry<K, V>>, b: seq<Entry<K, V>>, key: K)
    ensures Lookup(a + b, key) == if Lookup(a, key).Some? then Lookup(a, key) else Lookup(b, key)
  {
    if a != [] {
      assert (a + b)[0] == a[0];
      assert (a + b)[1..] == a[1..] + b;
      LookupAppend(a[1..], b, key);
    } else {
      assert a + b == b;
    }
  }

  /** Keys that are declared once each. */
  predicate DistinctKeys<K(==), V>(fields: seq<Field<K, V>>) {
    forall i, j :: 0 <= i < j < |fields| ==> fields[i].0 != fields[j].0
  }

  /**
   * After the undefined fields are dropped, each declared key has exactly the value it was
   * declared with: a defined value is kept, an undefined one leaves the key absent.
   */
  lemma {:induction false} LookupDefined<K, V>(fields: seq<Field<K, V>>, i: nat)
    requires i < |fields| && DistinctKeys(fields)
    ensures Lookup(Defined(fields), fields[i].0) == fields[i].1
  {
    var n := |fields| - 1;
    var init := fields[..n];
    var key := fields[i].0;
    assert fields == init + [fields[n]];
    DefinedSnoc(init, fields[n]);
    LookupAppend(Defined(init), Keep(fields[n]), key);
    if i == n {
      var d := Defined(init);
      forall m | 0 <= m < |d| ensures d[m].0 != key {
        DefinedFrom(init, m);
        var j :| 0 <= j < |init| && init[j] == (d[m].0, Some(d[m].1));
        assert init[j] == fields[j];
      }
    } else {
      assert DistinctKeys(init) by {
        forall a, b | 0 <= a < b < |init| ensures init[a].0 != init[b].0 {
          assert init[a] == fields[a] && init[b] == fields[b];
        }
      }
      assert init[i] == fields[i];
      LookupDefined(init, i);
      assert fields[n].0 != key;
    }
  }

  /** `Object.keys(updateFields)` after the deletions. */
  function Keys<K, V>(kept: seq<Entry<K, V>>): (names: seq<K>)
    ensures |names| == |kept|
    ensures forall i :: 0 <= i < |kept| ==> names[i] == kept[i].0
  {
    if kept == [] then [] else [kept[0].0] + Keys(kept[1..])
  }

  lemma KeysAppend<K, V>(a: seq<Entry<K, V>>, b: seq<Entry<K, V>>)
    ensures Keys(a + b) == Keys(a) + Keys(b)
  {
    assert forall i :: 0 <= i < |a + b| ==> (a + b)[i] == if i < |a| then a[i] else b[i - |a|];
  }

  /** Declaring one more field adds its key at the end when it is defined. */
  lemma KeysDefinedSnoc<K, V>(fields: seq<Field<K, V>>, f: Field<K, V>)
    ensures Keys(Defined(fields + [f])) == Keys(Defined(fields)) + (if f.1.Some? then [f.0] else [])
  {
    DefinedSnoc(fields, f);
    KeysAppend(Defined(fields), Keep(f));
  }

  /** The `forEach` that deletes the undefined keys. */
  method DropUndefined<K, V>(fields: seq<Field<K, V>>) returns (kept: seq<Entry<K, V>>)
    ensures kept == Defined(fields)
  {
    kept := [];
    var i := 0;
    while i < |fields|
      invariant 0 <= i <= |fields|
      invariant kept == Defined(fields[..i])
    {
      assert fields[..i + 1][..i] == fields[..i];
      if fields[i].1.Some? {
        kept := kept + [(fields[i].0, fields[i].1.value)];
      }
      i := i + 1;
    }
    assert fields[..i] == fields;
  }

  /** Dropping the undefined fields never changes the relative order of the defined ones. */
  lemma {:induction false} DefinedOrder<K, V>(fields: seq<Field<K, V>>, a: nat, b: nat)
    requires a < b < |fields| && fields[a].1.Some? && fields[b].1.Some?
    ensures exists i, j ::
              && 0 <= i < j < |Defined(fields)|
              && Defined(fields)[i] == (fields[a].0, fields[a].1.value)
              && Defined(fields)[j] == (fields[b].0, fields[b].1.value)
  {
    var init := fields[..|fields| - 1];
    if b == |fields| - 1 {
      assert init[a] == fields[a];
      assert (init[a].0, init[a].1.value) in Defined(init);
      var i :| 0 <= i < |Defined(init)| && Defined(init)[i] == (fields[a].0, fields[a].1.value);
      assert Defined(fields) == Defined(init) + [(fields[b].0, fields[b].1.value)];
      assert Defined(fields)[i] == Defined(init)[i];
      assert Defined(fields)[|Defined(init)|] == (fields[b].0, fields[b].1.value);
    } else {
      assert init[a] == fields[a] && init[b] == fields[b];
      DefinedOrder(init, a, b);
      var i, j :| 0 <= i < j < |Defined(init)|
        && Defined(init)[i] == (fields[a].0, fields[a].1.value)
        && Defined(init)[j] == (fields[b].0, fields[b].1.value);
      assert Defined(fields) == Defined(init) + Keep(fields[|fields| - 1]);
      assert Defined(fields)[i] == Defined(init)[i] && Defined(fields)[j] == Defined(init)[j];
    }
  }
}
