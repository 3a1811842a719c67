/** Sums over finite maps, in an order that does not matter. */
module Sums {

  ghost function Sum<K(!new)>(m: map<K, real>): real {
    if m.Keys == {} then 0.0
    else
      var k :| k in m;
      m[k] + Sum(m - {k})
  }

  /** Any key can be taken out first. */
  lemma {:induction false} SumPick<K(!new)>(m: map<K, real>, k: K)
    requires k in m
    ensures Sum(m) == m[k] + Sum(m - {k})
    decreases |m|
  {
    var j :| j in m && Sum(m) == m[j] + Sum(m - {j});
    if j != k {
      SumPick(m - {j}, k);
      SumPick(m - {k}, j);
      assert m - {j} - {k} == m - {k} - {j};
    }
  }

  lemma SumPut<K(!new)>(m: map<K, real>, k: K, x: real)
    ensures Sum(m[k := x]) == Sum(m) - (if k in m then m[k] else 0.0) + x
  {
    var n := m[k := x];
    SumPick(n, k);
    if k in m {
      SumPick(m, k);
      assert n - {k} == m - {k};
    } else {
      assert n - {k} == m;
    }
  }

  function Times(c: real, x: real): real { c * x }

  lemma {:induction false} SumScaled<K(!new)>(m: map<K, real>, n: map<K, real>, c: real)
    requires m.Keys == n.Keys && forall k :: k in m ==> n[k] == Times(c, m[k])
    ensures Sum(n) == Times(c, Sum(m))
    decreases |m|
  {
    hide Times;
    if m.Keys == {} {
      TimesZero(c);
    } else {
      var k :| k in m;
      SumPick(m, k);
      SumPick(n, k);
      SumScaled(m - {k}, n - {k}, c);
      TimesSum(c, m[k], Sum(m - {k}));
    }
  }

  lemma TimesZero(c: real)
    ensures Times(c, 0.0) == 0.0
  {}

  lemma TimesSum(c: real, x: real, y: real)
    ensures Times(c, x + y) == Times(c, x) + Times(c, y)
  {}

  ghost function Count<K(!new)>(m: map<K, nat>): nat {
    if m.Keys == {} then 0
    else
      var k :| k in m;
      m[k] + Count(m - {k})
  }

  lemma {:induction false} CountPick<K(!new)>(m: map<K, nat>, k: K)
    requires k in m
    ensures Count(m) == m[k] + Count(m - {k})
    decreases |m|
  {
    var j :| j in m && Count(m) == m[j] + Count(m - {j});
    if j != k {
      CountPick(m - {j}, k);
      CountPick(m - {k}, j);
      assert m - {j} - {k} == m - {k} - {j};
    }
  }

  lemma CountPut<K(!new)>(m: map<K, nat>, k: K, x: nat)
    ensures Count(m[k := x]) == Count(m) - (if k in m then m[k] else 0) + x
  {
    var n := m[k := x];
    CountPick(n, k);
    if k in m {
      CountPick(m, k);
      assert n - {k} == m - {k};
    } else {
      assert n - {k} == m;
    }
  }
}
