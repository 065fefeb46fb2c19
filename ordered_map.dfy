/**
 * A JavaScript object used as a dictionary, or a JavaScript `Map`: its entries, and the order
 * in which `for...in` (or `Map` iteration) visits their keys. Assigning to a key that is already
 * present keeps its place; a new key goes last; deleting a key drops it from the order.
 */
module OrderedMap {
  import opened Wrappers

  datatype Table<V> = Table(keys: seq<string>, entries: map<string, V>) {

    /** The visiting order lists every key exactly once. */
    ghost predicate Valid() {
      && Distinct(keys)
      && (forall k :: k in entries <==> k in keys)
    }
  }

  ghost predicate Distinct(ks: seq<string>) {
    forall i, j :: 0 <= i < j < |ks| ==> ks[i] != ks[j]
  }

  function Empty<V>(): (t: Table<V>)
    ensures t.Valid() && t.entries == map[]
  {
    Table([], map[])
  }

  /** `t[k]`, or `undefined`. */
  function Get<V>(t: Table<V>, k: string): Option<V> {
    if k in t.entries then Some(t.entries[k]) else None
  }

  /** `t[k] = v`. */
  function Put<V>(t: Table<V>, k: string, v: V): (r: Table<V>)
    ensures t.Valid() ==> r.Valid()
  {
    Table(if k in t.entries then t.keys else t.keys + [k], t.entries[k := v])
  }

  /** `ks` with every occurrence of `k` removed, the others kept in order. */
  function Without(ks: seq<string>, k: string): (r: seq<string>)
    ensures forall x :: x in r <==> x in ks && x != k
    ensures |r| <= |ks|
  {
    if ks == [] then []
    else Without(ks[..|ks| - 1], k) + (if ks[|ks| - 1] == k then [] else [ks[|ks| - 1]])
  }

  /** `delete t[k]`. */
  function Delete<V>(t: Table<V>, k: string): (r: Table<V>)
    ensures r.entries == t.entries - {k}
  {
    Table(Without(t.keys, k), t.entries - {k})
  }

  // ---------------------------------------------------------------------------------------

  /** Removing a key that does not occur leaves the order as it was. */
  lemma {:induction false} WithoutAbsent(ks: seq<string>, k: string)
    requires k !in ks
    ensures Without(ks, k) == ks
  {
    if ks != [] {
      WithoutAbsent(ks[..|ks| - 1], k);
      assert ks == ks[..|ks| - 1] + [ks[|ks| - 1]];
    }
  }

  /** Removing a key keeps the other keys distinct. */
  lemma {:induction false} WithoutDistinct(ks: seq<string>, k: string)
    requires Distinct(ks)
    ensures Distinct(Without(ks, k))
  {
    if ks != [] {
      var init, last := ks[..|ks| - 1], ks[|ks| - 1];
      WithoutDistinct(init, k);
      var w := Without(init, k);
      assert last !in init;
      if last != k {
        var r := w + [last];
        forall i, j | 0 <= i < j < |r| ensures r[i] != r[j] {
          if j == |w| {
            assert r[i] in w;
          }
        }
      }
    }
  }

  /** Deleting from a valid table gives a valid table without that key. */
  lemma DeleteValid<V>(t: Table<V>, k: string)
    requires t.Valid()
    ensures Delete(t, k).Valid()
    ensures k !in Delete(t, k).keys
  {
    WithoutDistinct(t.keys, k);
  }

  /** `delete` twice is `delete` once. */
  lemma DeleteIdempotent<V>(t: Table<V>, k: string)
    ensures Delete(Delete(t, k), k) == Delete(t, k)
  {
    WithoutAbsent(Without(t.keys, k), k);
  }

  /** Deleting a key that is absent from a valid table changes nothing. */
  lemma DeleteAbsent<V>(t: Table<V>, k: string)
    requires t.Valid() && k !in t.entries
    ensures Delete(t, k) == t
  {
    WithoutAbsent(t.keys, k);
  }

  /** Adding a fresh key and deleting it again restores the table, order included. */
  lemma PutThenDelete<V>(t: Table<V>, k: string, v: V)
    requires t.Valid() && k !in t.entries
    ensures Delete(Put(t, k, v), k) == t
  {
    WithoutAbsent(t.keys, k);
    assert t.entries[k := v] - {k} == t.entries;
  }
}
