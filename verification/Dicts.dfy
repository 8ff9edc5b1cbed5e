// Python dictionaries: key-value lists in insertion order.  Assigning to a present key keeps
// its position, a new key goes to the end, and a default stands for an absent one.
module Dicts {

  type Dict<K, V> = seq<(K, V)>

  predicate Has<K(==), V>(d: Dict<K, V>, k: K) {
    |d| > 0 && (d[0].0 == k || Has(d[1..], k))
  }

  function Get<K(==), V>(d: Dict<K, V>, k: K, default: V): V {
    if |d| == 0 then default else if d[0].0 == k then d[0].1 else Get(d[1..], k, default)
  }

  function Put<K(==), V>(d: Dict<K, V>, k: K, v: V): (r: Dict<K, V>)
    ensures |r| > 0
  {
    if |d| == 0 then [(k, v)]
    else if d[0].0 == k then [(k, v)] + d[1..]
    else [d[0]] + Put(d[1..], k, v)
  }

  function Delete<K(==), V>(d: Dict<K, V>, k: K): Dict<K, V> {
    if |d| == 0 then [] else if d[0].0 == k then d[1..] else [d[0]] + Delete(d[1..], k)
  }

  function SumBy<K, V>(d: Dict<K, V>, f: V -> nat): nat {
    if |d| == 0 then 0 else f(d[0].1) + SumBy(d[1..], f)
  }

  ghost predicate UniqueKeys<K, V>(d: Dict<K, V>) {
    forall i, j :: 0 <= i < j < |d| ==> d[i].0 != d[j].0
  }

  lemma {:induction false} PutGet<K, V>(d: Dict<K, V>, k: K, v: V, j: K, default: V)
    ensures Get(Put(d, k, v), j, default) == if j == k then v else Get(d, j, default)
  {
    if |d| > 0 && d[0].0 != k {
      PutGet(d[1..], k, v, j, default);
    }
  }

  // Updating one key changes a total by the change of its value.
  lemma {:induction false} PutSum<K, V>(d: Dict<K, V>, k: K, v: V, f: V -> nat, default: V)
    requires f(default) == 0
    ensures SumBy(Put(d, k, v), f) + f(Get(d, k, default)) == SumBy(d, f) + f(v)
  {
    if |d| > 0 {
      if d[0].0 == k {
        assert Put(d, k, v)[1..] == d[1..];
      } else {
        PutSum(d[1..], k, v, f, default);
        assert Put(d, k, v)[1..] == Put(d[1..], k, v);
      }
    }
  }

  lemma {:induction false} HasAt<K, V>(d: Dict<K, V>, k: K)
    ensures Has(d, k) <==> exists i :: 0 <= i < |d| && d[i].0 == k
  {
    if |d| > 0 {
      HasAt(d[1..], k);
      if Has(d[1..], k) {
        var i :| 0 <= i < |d[1..]| && d[1..][i].0 == k;
        assert d[i + 1].0 == k;
      }
      if i :| 0 < i < |d| && d[i].0 == k {
        assert d[1..][i - 1].0 == k;
      }
    }
  }

  lemma {:induction false} GetAt<K, V>(d: Dict<K, V>, i: nat, default: V)
    requires UniqueKeys(d) && i < |d|
    ensures Get(d, d[i].0, default) == d[i].1
  {
    if i > 0 {
      assert d[0].0 != d[i].0;
      GetAt(d[1..], i - 1, default);
    }
  }

  lemma {:induction false} PutBeyond<K, V>(before: Dict<K, V>, after: Dict<K, V>, k: K, v: V)
    requires !Has(before, k)
    ensures Put(before + after, k, v) == before + Put(after, k, v)
  {
    if |before| == 0 {
      assert before + after == after;
    } else {
      PutBeyond(before[1..], after, k, v);
      assert (before + after)[1..] == before[1..] + after;
    }
  }

  lemma {:induction false} DeleteBeyond<K, V>(before: Dict<K, V>, after: Dict<K, V>, k: K)
    requires !Has(before, k)
    ensures Delete(before + after, k) == before + Delete(after, k)
  {
    if |before| == 0 {
      assert before + after == after;
    } else {
      DeleteBeyond(before[1..], after, k);
      assert (before + after)[1..] == before[1..] + after;
    }
  }

  lemma {:induction false} PutUnique<K, V>(d: Dict<K, V>, k: K, v: V)
    requires UniqueKeys(d)
    ensures UniqueKeys(Put(d, k, v))
    ensures forall i :: 0 <= i < |Put(d, k, v)| ==> Put(d, k, v)[i] == (k, v) || Put(d, k, v)[i] in d
  {
    if |d| > 0 && d[0].0 != k {
      PutUnique(d[1..], k, v);
      var r := Put(d[1..], k, v);
      forall i | 0 <= i < |r| ensures r[i].0 != d[0].0 {
        if r[i] != (k, v) {
          var j :| 0 <= j < |d[1..]| && d[1..][j] == r[i];
          assert d[j + 1].0 != d[0].0;
        }
      }
    }
  }
}
