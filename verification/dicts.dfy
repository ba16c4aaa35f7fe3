/**
 * A Python `dict` with string keys: its (key, value) pairs in insertion
 * order, as `items()` yields them. Assignment replaces the value of a
 * present key in place and appends a new key at the end.
 */
module Dicts {
  import opened Outcomes

  type Dict<V> = seq<(string, V)>

  /** The keys in insertion order. */
  function Keys<V>(d: Dict<V>): seq<string>
  {
    if d == [] then [] else [d[0].0] + Keys(d[1..])
  }

  /** `Keys` lists the first component of every pair, position by position. */
  lemma {:induction false} KeysAt<V>(d: Dict<V>)
    ensures |Keys(d)| == |d|
    ensures forall i :: 0 <= i < |d| ==> Keys(d)[i] == d[i].0
  {
    if d != [] {
      KeysAt(d[1..]);
    }
  }

  /** No key occurs twice, as in every dict. */
  predicate DistinctKeys<V>(d: Dict<V>)
  {
    forall i, j :: 0 <= i < j < |d| ==> d[i].0 != d[j].0
  }

  /** `d.get(k)`: the value stored under `k`, if any. */
  function Get<V>(d: Dict<V>, k: string): Option<V>
  {
    if d == [] then None
    else if d[0].0 == k then Some(d[0].1)
    else Get(d[1..], k)
  }

  /** A lookup finds a value exactly for the present keys, and the pair it finds is in the dict. */
  lemma {:induction false} GetFound<V>(d: Dict<V>, k: string)
    ensures Get(d, k).Some? <==> k in Keys(d)
    ensures Get(d, k).Some? ==> (k, Get(d, k).value) in d && Get(d, k).value in Values(d)
  {
    if d != [] && d[0].0 != k {
      GetFound(d[1..], k);
    }
  }

  /** `d.get(k, default)`. */
  function GetOr<V>(d: Dict<V>, k: string, default: V): V
  {
    match Get(d, k)
    case Some(v) => v
    case None => default
  }

  /** `d.get(k, default)` is the stored value for a present key and the default otherwise. */
  lemma GetOrFound<V>(d: Dict<V>, k: string, default: V)
    ensures k in Keys(d) ==> Some(GetOr(d, k, default)) == Get(d, k)
    ensures k !in Keys(d) ==> GetOr(d, k, default) == default
  {
    GetFound(d, k);
  }

  /** A lookup with a default stays within a bound that every value and the default keep. */
  lemma {:induction false} GetOrBounded(d: Dict<int>, k: string, default: int, lo: int)
    requires forall i :: 0 <= i < |d| ==> d[i].1 >= lo
    requires default >= lo
    ensures GetOr(d, k, default) >= lo
  {
    if d != [] && d[0].0 != k {
      GetOrBounded(d[1..], k, default, lo);
    }
  }

  /** `d[k] = v`: a present key gets the new value in place, a new key goes last. */
  function Put<V>(d: Dict<V>, k: string, v: V): Dict<V>
  {
    if d == [] then [(k, v)]
    else if d[0].0 == k then [(k, v)] + d[1..]
    else [d[0]] + Put(d[1..], k, v)
  }

  /** Assignment adds at most one entry. */
  lemma {:induction false} PutLength<V>(d: Dict<V>, k: string, v: V)
    ensures |d| <= |Put(d, k, v)| <= |d| + 1
  {
    if d != [] && d[0].0 != k {
      PutLength(d[1..], k, v);
    }
  }

  /** Assignment keeps the key order; a new key goes last. */
  lemma {:induction false} PutKeys<V>(d: Dict<V>, k: string, v: V)
    ensures Keys(Put(d, k, v)) == if k in Keys(d) then Keys(d) else Keys(d) + [k]
  {
    if d != [] && d[0].0 != k {
      PutKeys(d[1..], k, v);
      assert Keys(d) == [d[0].0] + Keys(d[1..]);
      assert Keys(Put(d, k, v)) == [d[0].0] + Keys(Put(d[1..], k, v));
    }
  }

  /** After `d[k] = v`, `k` maps to `v` and every other key keeps its value. */
  lemma {:induction false} PutGet<V>(d: Dict<V>, k: string, v: V)
    ensures Get(Put(d, k, v), k) == Some(v)
    ensures forall j :: j != k ==> Get(Put(d, k, v), j) == Get(d, j)
  {
    if d != [] && d[0].0 != k {
      PutGet(d[1..], k, v);
      assert Put(d, k, v)[1..] == Put(d[1..], k, v);
    }
  }

  /** Assignment keeps the keys distinct. */
  lemma {:induction false} PutDistinct<V>(d: Dict<V>, k: string, v: V)
    requires DistinctKeys(d)
    ensures DistinctKeys(Put(d, k, v))
  {
    var r := Put(d, k, v);
    PutKeys(d, k, v);
    KeysAt(r);
    KeysAt(d);
    assert forall i :: 0 <= i < |r| ==> r[i].0 == Keys(r)[i];
    assert forall i :: 0 <= i < |d| ==> d[i].0 == Keys(d)[i];
  }

  /** The sum of the values, `sum(d.values())`. */
  function ValueSum(d: Dict<int>): int
  {
    if d == [] then 0 else d[0].1 + ValueSum(d[1..])
  }

  /** Assigning a key changes the value sum by the difference between the new and the old value. */
  lemma {:induction false} PutValueSum(d: Dict<int>, k: string, v: int)
    ensures ValueSum(Put(d, k, v)) == ValueSum(d) - GetOr(d, k, 0) + v
  {
    if d != [] && d[0].0 != k {
      PutValueSum(d[1..], k, v);
      assert Put(d, k, v)[1..] == Put(d[1..], k, v);
    }
  }

  /** A dict whose every value is `c` has value sum `|d| * c`. */
  lemma {:induction false} ValueSumConstant(d: Dict<int>, c: int)
    requires forall i :: 0 <= i < |d| ==> d[i].1 == c
    ensures ValueSum(d) == |d| * c
  {
    if d != [] {
      ValueSumConstant(d[1..], c);
      assert ValueSum(d) == c + (|d| - 1) * c;
    }
  }

  /** The values in insertion order, `list(d.values())`. */
  function Values<V>(d: Dict<V>): seq<V>
  {
    if d == [] then [] else [d[0].1] + Values(d[1..])
  }

  /** `Values` lists the second component of every pair, position by position. */
  lemma {:induction false} ValuesAt<V>(d: Dict<V>)
    ensures |Values(d)| == |d|
    ensures forall i :: 0 <= i < |d| ==> Values(d)[i] == d[i].1
  {
    if d != [] {
      ValuesAt(d[1..]);
    }
  }

  /** The value sum peeled from the back. */
  lemma {:induction false} ValueSumLast(d: Dict<int>)
    requires d != []
    ensures ValueSum(d) == ValueSum(d[..|d| - 1]) + d[|d| - 1].1
  {
    if |d| > 1 {
      ValueSumLast(d[1..]);
      assert d[1..][..|d| - 2] == d[..|d| - 1][1..];
    }
  }

  /** Assigning a value at least `lo` into a dict whose values are at least `lo` keeps them so. */
  lemma {:induction false} PutBounded(d: Dict<int>, k: string, v: int, lo: int)
    requires forall i :: 0 <= i < |d| ==> d[i].1 >= lo
    requires v >= lo
    ensures forall i :: 0 <= i < |Put(d, k, v)| ==> Put(d, k, v)[i].1 >= lo
  {
    if d != [] && d[0].0 != k {
      PutBounded(d[1..], k, v, lo);
      assert Put(d, k, v)[1..] == Put(d[1..], k, v);
    }
  }

  /** Assigning `c` into a dict whose values all equal `c` keeps them all equal. */
  lemma {:induction false} PutConstant(d: Dict<int>, k: string, c: int)
    requires forall i :: 0 <= i < |d| ==> d[i].1 == c
    ensures forall i :: 0 <= i < |Put(d, k, c)| ==> Put(d, k, c)[i].1 == c
  {
    if d != [] && d[0].0 != k {
      PutConstant(d[1..], k, c);
      assert Put(d, k, c)[1..] == Put(d[1..], k, c);
    }
  }
}
