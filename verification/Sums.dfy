/** Sum of the multisets a finite map assigns to its keys. */
module Sums {

  ghost function Total<T>(m: map<nat, multiset<T>>): multiset<T>
    decreases |m|
  {
    if m == map[] then multiset{}
    else
      var k: nat :| k in m;
      m[k] + Total(m - {k})
  }

  lemma {:induction false} TotalSplit<T>(m: map<nat, multiset<T>>, k: nat)
    requires k in m
    ensures Total(m) == m[k] + Total(m - {k})
    decreases |m|
  {
    var j: nat :| j in m && Total(m) == m[j] + Total(m - {j});
    if j != k {
      TotalSplit(m - {j}, k);
      TotalSplit(m - {k}, j);
      assert m - {j} - {k} == m - {k} - {j};
    }
  }

  ghost function At<T>(m: map<nat, multiset<T>>, k: nat): multiset<T>
  {
    if k in m then m[k] else multiset{}
  }

  lemma TotalWithout<T>(m: map<nat, multiset<T>>, k: nat)
    ensures Total(m) == At(m, k) + Total(m - {k})
  {
    if k in m {
      TotalSplit(m, k);
    } else {
      assert m - {k} == m;
    }
  }

  /** Changing what one key is assigned changes the sum by that much. */
  lemma TotalChange<T>(m: map<nat, multiset<T>>, m': map<nat, multiset<T>>, k: nat)
    requires m - {k} == m' - {k}
    ensures Total(m') + At(m, k) == Total(m) + At(m', k)
  {
    TotalWithout(m, k);
    TotalWithout(m', k);
  }

  /** If what leaves one part arrives in the other, the sum stands. */
  lemma Balance<T>(a: multiset<T>, t: multiset<T>, t': multiset<T>, r: multiset<T>, r': multiset<T>, x: multiset<T>, y: multiset<T>)
    requires a == t + r && t' + x == t + y && r' + y == r + x
    ensures a == t' + r'
  {
    forall e: T
      ensures (t' + r')[e] == (t + r)[e]
    {
      assert (t' + x)[e] == (t + y)[e] && (r' + y)[e] == (r + x)[e];
    }
  }

  lemma BalancePlus<T>(a: multiset<T>, t: multiset<T>, t': multiset<T>, r: multiset<T>, x: multiset<T>)
    requires a == t + r && t' + multiset{} == t + x
    ensures a + x == t' + r
  {
    assert t' == t + x;
    assert a + x == t + x + r;
  }
}
