/**
 * A store path holding keyed children, as a snapshot lists them: an ordered
 * sequence of key/value rows. Writing a child in place (`set`/`update` at
 * `path/key`) is `Put`.
 */
module Table {
  import opened Wrappers

  datatype Row<V> = Row(key: string, value: V)

  type Table<V> = seq<Row<V>>

  function Keys<V>(t: Table<V>): (ks: set<string>)
    ensures forall i :: 0 <= i < |t| ==> t[i].key in ks
  {
    if t == [] then {} else {t[0].key} + Keys(t[1..])
  }

  /** The keys in row order, as a snapshot enumerates them. */
  function KeySeq<V>(t: Table<V>): (ks: seq<string>)
    ensures |ks| == |t|
    ensures forall i :: 0 <= i < |t| ==> ks[i] == t[i].key
  {
    if t == [] then [] else [t[0].key] + KeySeq(t[1..])
  }

  /** No key occurs twice, as in any store path. */
  predicate UniqueKeys<V>(t: Table<V>) {
    forall i, j :: 0 <= i < j < |t| ==> t[i].key != t[j].key
  }

  /** Reading `path/key`: the value of the first row with that key. */
  function Lookup<V(==)>(t: Table<V>, k: string): (r: Option<V>)
    ensures r.Some? <==> k in Keys(t)
    ensures r.Some? ==> Row(k, r.value) in t
  {
    if t == [] then None
    else if t[0].key == k then Some(t[0].value)
    else Lookup(t[1..], k)
  }

  /** Writing `v` at `path/key`: replaces the child in place, or adds it at the end when absent. */
  function Put<V(==)>(t: Table<V>, k: string, v: V): (r: Table<V>)
    ensures Lookup(r, k) == Some(v)
    ensures forall j :: j != k ==> Lookup(r, j) == Lookup(t, j)
    ensures k !in Keys(t) ==> r == t + [Row(k, v)]
  {
    if t == [] then [Row(k, v)]
    else if t[0].key == k then [Row(k, v)] + t[1..]
    else
      var rest := Put(t[1..], k, v);
      var r := [t[0]] + rest;
      assert r[0] == t[0] && r[1..] == rest;
      assert k !in Keys(t) ==> r == t + [Row(k, v)] by {
        if k !in Keys(t) {
          assert k !in Keys(t[1..]);
          assert t == [t[0]] + t[1..];
        }
      }
      r
  }

  /** Writing at an existing key keeps every row in its place. */
  lemma {:induction false} PutKeepsOrder<V>(t: Table<V>, k: string, v: V)
    requires k in Keys(t)
    ensures |Put(t, k, v)| == |t|
    ensures forall i :: 0 <= i < |t| ==> Put(t, k, v)[i].key == t[i].key
  {
    if t[0].key != k {
      PutKeepsOrder(t[1..], k, v);
    }
  }

  /** In a table with unique keys, each row is what a lookup of its key reads. */
  lemma {:induction false} LookupRow<V>(t: Table<V>, row: Row<V>)
    requires UniqueKeys(t) && row in t
    ensures Lookup(t, row.key) == Some(row.value)
  {
    if t[0] != row {
      assert t[0].key != row.key by {
        var i :| 0 <= i < |t| && t[i] == row;
        assert i > 0;
      }
      LookupRow(t[1..], row);
    }
  }

  /** Writing back the value just read changes nothing. */
  lemma {:induction false} PutLookup<V>(t: Table<V>, k: string, v: V)
    requires Lookup(t, k) == Some(v)
    ensures Put(t, k, v) == t
  {
    if t[0].key != k {
      PutLookup(t[1..], k, v);
    }
  }

  /** A second write at the same key overrides the first. */
  lemma {:induction false} PutPut<V>(t: Table<V>, k: string, v1: V, v2: V)
    ensures Put(Put(t, k, v1), k, v2) == Put(t, k, v2)
  {
    if t != [] && t[0].key != k {
      PutPut(t[1..], k, v1, v2);
    }
  }

  /** Writing keeps keys unique. */
  lemma PutUnique<V>(t: Table<V>, k: string, v: V)
    requires UniqueKeys(t)
    ensures UniqueKeys(Put(t, k, v))
  {
    var r := Put(t, k, v);
    if k in Keys(t) {
      PutKeepsOrder(t, k, v);
    } else {
      forall i, j | 0 <= i < j < |r|
        ensures r[i].key != r[j].key
      {
        if j == |t| {
          assert r[i] == t[i];
          assert t[i].key in Keys(t);
        }
      }
    }
  }

  /** With unique keys, a key of the tail is not the head's. */
  lemma {:induction false} KeyInTail<V>(t: Table<V>, k: string)
    requires UniqueKeys(t) && t != [] && k in Keys(t[1..])
    ensures t[0].key != k
  {
    var i := KeyIndex(t[1..], k);
    assert t[i + 1].key == k;
  }

  /** The index of a row holding `k`. */
  lemma {:induction false} KeyIndex<V>(t: Table<V>, k: string) returns (i: nat)
    requires k in Keys(t)
    ensures i < |t| && t[i].key == k
  {
    if t[0].key != k {
      i := KeyIndex(t[1..], k);
      i := i + 1;
    } else {
      i := 0;
    }
  }
}
