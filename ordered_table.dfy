/** Python dicts as the tool uses them: insertion-ordered tables from a key to a
    size, assignment `d[k] = v`, and `min`/`max` over the keys ranked by value. */
module OrderedTable {
  import opened Outcomes
  import opened Seqs

  type Table<K> = seq<(K, nat)>

  function Keys<K>(t: Table<K>): (ks: seq<K>)
    ensures |ks| == |t| && forall i :: 0 <= i < |t| ==> ks[i] == t[i].0
  {
    seq(|t|, i requires 0 <= i < |t| => t[i].0)
  }

  /** No key occurs twice, as in every Python dict. */
  predicate DistinctKeys<K(==)>(t: Table<K>) {
    Distinct(Keys(t))
  }

  /** The position of key `k`, or `|t|` when `k` is absent. */
  function Find<K(==)>(t: Table<K>, k: K): (i: nat)
    ensures i <= |t|
    ensures i < |t| ==> t[i].0 == k
    ensures forall j :: 0 <= j < i ==> t[j].0 != k
    decreases |t|
  {
    if |t| == 0 then 0 else if t[0].0 == k then 0 else 1 + Find(t[1..], k)
  }

  /** `d.get(k)`. */
  function Get<K(==)>(t: Table<K>, k: K): Option<nat> {
    var i := Find(t, k);
    if i < |t| then Some(t[i].1) else None
  }

  /** `d[k] = v`: a present key keeps its place and takes the new value, an
      absent key is appended. */
  function Put<K(==,!new)>(t: Table<K>, k: K, v: nat): (r: Table<K>)
    ensures Get(r, k) == Some(v)
    ensures forall k' :: k' != k ==> Get(r, k') == Get(t, k')
    ensures Find(t, k) < |t| ==> Keys(r) == Keys(t)
    ensures Find(t, k) == |t| ==> Keys(r) == Keys(t) + [k]
    ensures forall j :: 0 <= j < |r| ==> r[j] == (k, v) || r[j] in t
    ensures DistinctKeys(t) ==> DistinctKeys(r)
    ensures Find(t, k) == |t| ==> r == t + [(k, v)]
    ensures Find(t, k) < |t| ==> r == t[Find(t, k) := (k, v)]
  {
    var i := Find(t, k);
    if i < |t| then
      var r := t[i := (k, v)];
      assert forall k' :: k' != k ==> Find(r, k') == Find(t, k') by {
        forall k' | k' != k ensures Find(r, k') == Find(t, k') {
          FindAgree(t, r, k');
        }
      }
      assert Keys(r) == Keys(t);
      r
    else
      var r := t + [(k, v)];
      assert forall k' :: Find(t, k') < |t| ==> Find(r, k') == Find(t, k') by {
        forall k' | Find(t, k') < |t| ensures Find(r, k') == Find(t, k') {
          FindAgree(t, r, k');
        }
      }
      assert forall k' :: k' != k && Find(t, k') == |t| ==> Find(r, k') == |r| by {
        forall k' | k' != k && Find(t, k') == |t| ensures Find(r, k') == |r| {
          FindAgree(t, r, k');
        }
      }
      FindAgree(t, r, k);
      r
  }

  /** Two tables that agree on which positions hold key `k` find it at the same place. */
  lemma {:induction false} FindAgree<K>(t: Table<K>, r: Table<K>, k: K)
    requires |t| <= |r|
    requires forall j :: 0 <= j < |t| ==> (t[j].0 == k <==> r[j].0 == k)
    requires Find(t, k) == |t| ==> (|r| == |t| || r[|t|].0 == k || (|r| == |t| + 1 && r[|t|].0 != k))
    ensures Find(t, k) < |t| ==> Find(r, k) == Find(t, k)
    ensures Find(t, k) == |t| && |r| == |t| + 1 ==> Find(r, k) == (if r[|t|].0 == k then |t| else |r|)
    ensures Find(t, k) == |t| && |r| == |t| ==> Find(r, k) == |r|
    decreases |t|
  {
    if |t| > 0 && t[0].0 != k {
      FindAgree(t[1..], r[1..], k);
    } else if |t| == 0 && |r| > 0 && r[0].0 != k {
      assert |r| == 1;
      assert Find(r[1..], k) == 0;
    }
  }

  /** A stored pair can be found under its key when keys are distinct. */
  lemma StoredIsFound<K>(t: Table<K>, j: nat)
    requires DistinctKeys(t) && j < |t|
    ensures Find(t, t[j].0) == j && Get(t, t[j].0) == Some(t[j].1)
  {
  }

  /** What `Get` finds is stored in the table. */
  lemma GetIsStored<K>(t: Table<K>, k: K)
    requires Get(t, k).Some?
    ensures (k, Get(t, k).value) in t
  {
    assert t[Find(t, k)] == (k, Get(t, k).value);
  }

  /** `min(d, key=d.get)` as an index: the first entry holding the least value. */
  function SmallestIndex<K>(t: Table<K>): (i: nat)
    requires |t| > 0
    ensures i < |t|
    ensures forall j :: 0 <= j < |t| ==> t[i].1 <= t[j].1
    ensures forall j :: 0 <= j < i ==> t[j].1 > t[i].1
    decreases |t|
  {
    if |t| == 1 then 0
    else
      var k := SmallestIndex(t[1..]) + 1;
      if t[0].1 <= t[k].1 then 0 else k
  }

  /** `max(d, key=d.get)` as an index: the first entry holding the greatest value. */
  function LargestIndex<K>(t: Table<K>): (i: nat)
    requires |t| > 0
    ensures i < |t|
    ensures forall j :: 0 <= j < |t| ==> t[j].1 <= t[i].1
    ensures forall j :: 0 <= j < i ==> t[j].1 < t[i].1
    decreases |t|
  {
    if |t| == 1 then 0
    else
      var k := LargestIndex(t[1..]) + 1;
      if t[0].1 >= t[k].1 then 0 else k
  }

  /** `smallestSize(data)`: the first key of least value with its value; an
      empty table makes `min` raise ValueError. */
  function Smallest<K>(t: Table<K>): (r: Result<(K, nat)>)
    ensures r.Fail? <==> |t| == 0
    ensures r.Fail? ==> r.error == EmptyTable
    ensures r.Ok? ==> exists i :: 0 <= i < |t| && t[i] == r.value && IsFirstMinimal(t, i)
  {
    if |t| == 0 then Fail(EmptyTable) else Ok(t[SmallestIndex(t)])
  }

  /** The `(key, value)` pair `max(d, key=d.get)` designates; empty raises ValueError. */
  function Largest<K>(t: Table<K>): (r: Result<(K, nat)>)
    ensures r.Fail? <==> |t| == 0
    ensures r.Fail? ==> r.error == EmptyTable
    ensures r.Ok? ==> r.value in t && forall j :: 0 <= j < |t| ==> t[j].1 <= r.value.1
  {
    if |t| == 0 then Fail(EmptyTable) else Ok(t[LargestIndex(t)])
  }

  /** No stored value exceeds the one `max` designates. */
  lemma LargestAbove<K>(t: Table<K>, e: (K, nat))
    requires e in t
    ensures Largest(t).Ok? && e.1 <= Largest(t).value.1
  {
    var m :| 0 <= m < |t| && t[m] == e;
  }

  /** Entry `i` holds the least value and no earlier entry does. */
  predicate IsFirstMinimal<K>(t: Table<K>, i: nat) {
    && i < |t|
    && (forall j :: 0 <= j < |t| ==> t[i].1 <= t[j].1)
    && (forall j :: 0 <= j < i ==> t[j].1 > t[i].1)
  }

  /** The first-minimal position is unique, so `Smallest` is determined by it. */
  lemma FirstMinimalUnique<K>(t: Table<K>, i: nat, j: nat)
    requires IsFirstMinimal(t, i) && IsFirstMinimal(t, j)
    ensures i == j
  {
    var atI, atJ := t[i], t[j];
    assert atI.1 <= atJ.1 && atJ.1 <= atI.1;
  }

  /** When every entry holds the same value, the first key inserted wins. */
  lemma SmallestOfTie<K>(t: Table<K>)
    requires |t| > 0
    requires forall j :: 0 <= j < |t| ==> t[j].1 == t[0].1
    ensures Smallest(t) == Ok(t[0])
  {
  }
}
