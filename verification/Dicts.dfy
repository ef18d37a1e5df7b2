/** Python dictionaries: insertion-ordered associations with distinct keys. */
module Dicts {
  import opened Wrappers

  type Dict<V> = seq<(string, V)>

  function Lookup<V>(d: Dict<V>, k: string): Option<V> {
    if d == [] then None else if d[0].0 == k then Some(d[0].1) else Lookup(d[1..], k)
  }

  /** `d[k] = v`: an existing key keeps its place. */
  function Put<V>(d: Dict<V>, k: string, v: V): Dict<V> {
    if d == [] then [(k, v)]
    else if d[0].0 == k then [(k, v)] + d[1..]
    else [d[0]] + Put(d[1..], k, v)
  }

  /** `d.pop(k, None)` */
  function Delete<V>(d: Dict<V>, k: string): Dict<V> {
    if d == [] then []
    else if d[0].0 == k then d[1..]
    else [d[0]] + Delete(d[1..], k)
  }

  ghost predicate Distinct<V>(d: Dict<V>) {
    forall i, j | 0 <= i < j < |d| :: d[i].0 != d[j].0
  }

  lemma {:induction false} LookupPut<V>(d: Dict<V>, k: string, v: V, x: string)
    ensures Lookup(Put(d, k, v), x) == if x == k then Some(v) else Lookup(d, x)
  {
    if d != [] && d[0].0 != k {
      LookupPut(d[1..], k, v, x);
    }
  }

  lemma {:induction false} LookupAbsent<V>(d: Dict<V>, k: string)
    ensures Lookup(d, k) == None <==> forall i | 0 <= i < |d| :: d[i].0 != k
  {
    if d != [] {
      LookupAbsent(d[1..], k);
      assert forall i | 0 < i < |d| :: d[i] == d[1..][i - 1];
    }
  }

  lemma {:induction false} LookupMember<V>(d: Dict<V>, i: nat)
    requires Distinct(d) && i < |d|
    ensures Lookup(d, d[i].0) == Some(d[i].1)
  {
    if i > 0 {
      assert d[0].0 != d[i].0;
      LookupMember(d[1..], i - 1);
    }
  }

  lemma {:induction false} LookupDelete<V>(d: Dict<V>, k: string, x: string)
    requires Distinct(d)
    ensures Lookup(Delete(d, k), x) == if x == k then None else Lookup(d, x)
  {
    if d != [] {
      if d[0].0 == k {
        LookupAbsent(d[1..], k);
      } else {
        LookupDelete(d[1..], k, x);
      }
    }
  }

  lemma {:induction false} PutKeys<V>(d: Dict<V>, k: string, v: V, x: string)
    ensures (exists i | 0 <= i < |Put(d, k, v)| :: Put(d, k, v)[i].0 == x) ==> x == k || exists i | 0 <= i < |d| :: d[i].0 == x
  {
    LookupPut(d, k, v, x);
    LookupAbsent(Put(d, k, v), x);
    LookupAbsent(d, x);
  }

  lemma {:induction false} DistinctPut<V>(d: Dict<V>, k: string, v: V)
    requires Distinct(d)
    ensures Distinct(Put(d, k, v))
  {
    if d != [] && d[0].0 != k {
      DistinctPut(d[1..], k, v);
      var r := Put(d[1..], k, v);
      forall i | 0 <= i < |r| ensures r[i].0 != d[0].0 {
        PutKeys(d[1..], k, v, d[0].0);
        LookupAbsent(d[1..], d[0].0);
      }
    }
  }

  lemma {:induction false} DeleteKept<V>(d: Dict<V>, k: string, i: nat)
    requires i < |Delete(d, k)|
    ensures Delete(d, k)[i] in d
    ensures |Delete(d, k)| <= |d|
  {
    if d != [] {
      assert d == [d[0]] + d[1..];
      if d[0].0 != k && i > 0 {
        DeleteKept(d[1..], k, i - 1);
      }
      DeleteLength(d, k);
    }
  }

  lemma {:induction false} DeleteLength<V>(d: Dict<V>, k: string)
    ensures |Delete(d, k)| <= |d|
  {
    if d != [] && d[0].0 != k { DeleteLength(d[1..], k); }
  }

  lemma {:induction false} DistinctDelete<V>(d: Dict<V>, k: string)
    requires Distinct(d)
    ensures Distinct(Delete(d, k))
  {
    if d != [] && d[0].0 != k {
      DistinctDelete(d[1..], k);
      var r := Delete(d[1..], k);
      forall i | 0 <= i < |r| ensures r[i].0 != d[0].0 {
        DeleteKept(d[1..], k, i);
        var j :| 0 <= j < |d[1..]| && d[1..][j] == r[i];
        assert d[j + 1] == r[i];
      }
    }
  }
}
