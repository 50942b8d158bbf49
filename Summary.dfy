/**
 * The integer summaries the pages compute from their full data set:
 * `Array.from(new Set(keys))` (the telescope menu) and `new Set(keys).size`
 * (the "Unique Objects", "Active Observers" and "Date Range" cards).
 * A JavaScript `Set` keeps its keys in first-insertion order and compares
 * numbers and strings by value.
 */
module Summary {
  import opened Chart

  predicate NoDuplicates<K(==)>(s: seq<K>)
  {
    forall i, j :: 0 <= i < j < |s| ==> s[i] != s[j]
  }

  /** The set of keys a sequence holds. */
  function Elements<K(==)>(s: seq<K>): set<K>
  {
    set k | k in s
  }

  /** `Array.from(new Set(keys))`: every distinct key once, in the order of its first occurrence. */
  function Dedup<K(==)>(keys: seq<K>): (d: seq<K>)
    ensures NoDuplicates(d)
    ensures forall k :: k in d ==> k in keys
    ensures forall k :: k in keys ==> k in d
    ensures |d| <= |keys|
  {
    if keys == [] then []
    else
      var init, last := keys[..|keys| - 1], keys[|keys| - 1];
      assert keys == init + [last];
      var d := Dedup(init);
      if last in d then d else d + [last]
  }

  /** The position where `k` first occurs in `s`. */
  function FirstIndex<K(==)>(s: seq<K>, k: K): (i: nat)
    requires k in s
    ensures i < |s| && s[i] == k
    ensures forall j :: 0 <= j < i ==> s[j] != k
  {
    if s[0] == k then 0 else 1 + FirstIndex(s[1..], k)
  }

  /** Appending a key does not move the first occurrence of a key already present. */
  lemma FirstIndexAppend<K>(s: seq<K>, x: K, k: K)
    requires k in s
    ensures FirstIndex(s + [x], k) == FirstIndex(s, k)
  {
    var i, i' := FirstIndex(s, k), FirstIndex(s + [x], k);
    assert (s + [x])[i] == k;
    assert i' <= i;
    assert s[i'] == k;
  }

  /** The de-duplicated keys are listed in the order in which they first occur. */
  lemma {:induction false} DedupFirstOccurrenceOrder<K>(keys: seq<K>)
    ensures forall i, j :: 0 <= i < j < |Dedup(keys)| ==>
      FirstIndex(keys, Dedup(keys)[i]) < FirstIndex(keys, Dedup(keys)[j])
  {
    if keys != [] {
      var init, last := keys[..|keys| - 1], keys[|keys| - 1];
      assert keys == init + [last];
      DedupFirstOccurrenceOrder(init);
      var d0, d := Dedup(init), Dedup(keys);
      assert d == if last in d0 then d0 else d0 + [last];
      forall i, j | 0 <= i < j < |d|
        ensures FirstIndex(keys, d[i]) < FirstIndex(keys, d[j])
      {
        assert d[i] == d0[i] && d0[i] in d0;
        FirstIndexAppend(init, last, d0[i]);
        if j < |d0| {
          assert d[j] == d0[j] && d0[j] in d0;
          FirstIndexAppend(init, last, d0[j]);
        } else {
          assert d[j] == last && last !in init;
          assert FirstIndex(keys, last) == |init|;
        }
      }
    }
  }

  /** A sequence without duplicates has as many distinct elements as it has entries. */
  lemma {:induction false} NoDuplicatesCardinality<K>(s: seq<K>)
    requires NoDuplicates(s)
    ensures |Elements(s)| == |s|
  {
    if s != [] {
      var init, last := s[..|s| - 1], s[|s| - 1];
      assert s == init + [last];
      NoDuplicatesCardinality(init);
      assert last !in Elements(init);
      assert Elements(s) == Elements(init) + {last};
    }
  }

  /** `new Set(keys).size`: the number of distinct keys. */
  function DistinctCount<K(==)>(keys: seq<K>): (n: nat)
    ensures n == |Elements(keys)|
    ensures n <= |keys|
  {
    var d := Dedup(keys);
    NoDuplicatesCardinality(d);
    assert Elements(d) == Elements(keys);
    |d|
  }

  /** All keys equal: the count is 1 (0 for no keys). */
  lemma DistinctCountAllSame<K>(keys: seq<K>)
    requires |keys| > 0
    requires forall i :: 0 <= i < |keys| ==> keys[i] == keys[0]
    ensures DistinctCount(keys) == 1
  {
    assert Elements(keys) == {keys[0]};
  }

  /** All keys different: the count is the number of keys. */
  lemma DistinctCountAllDistinct<K>(keys: seq<K>)
    requires NoDuplicates(keys)
    ensures DistinctCount(keys) == |keys|
  {
    NoDuplicatesCardinality(keys);
  }

  /** The set of keys of the records. */
  ghost function KeySet<R, K>(rows: seq<R>, key: R -> K): set<K>
  {
    set r | r in rows :: key(r)
  }

  /** `new Set(rows.map(key)).size`: the number of distinct keys among the records. */
  function DistinctKeyCount<R, K(==)>(rows: seq<R>, key: R -> K): (n: nat)
    ensures n == |KeySet(rows, key)|
    ensures n <= |rows|
  {
    var keys := Project(rows, key);
    assert Elements(keys) == KeySet(rows, key) by {
      forall k | k in Elements(keys)
        ensures k in KeySet(rows, key)
      {
        var i :| 0 <= i < |keys| && keys[i] == k;
        assert rows[i] in rows;
      }
      forall r | r in rows
        ensures key(r) in Elements(keys)
      {
        var i :| 0 <= i < |rows| && rows[i] == r;
        assert keys[i] == key(r);
      }
    }
    DistinctCount(keys)
  }
}
