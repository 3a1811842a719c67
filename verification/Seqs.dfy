/** Filtering and mapping of sequences, and what survives them. */
module Seqs {
  import opened Prelude

  function Filter<T>(p: T -> bool, s: seq<T>): seq<T> {
    if s == [] then [] else Filter(p, s[..|s| - 1]) + (if p(s[|s| - 1]) then [s[|s| - 1]] else [])
  }

  function Map<S, T>(f: S -> T, s: seq<S>): (r: seq<T>)
    ensures |r| == |s| && forall i :: 0 <= i < |s| ==> r[i] == f(s[i])
  {
    seq(|s|, i requires 0 <= i < |s| => f(s[i]))
  }

  lemma FilterSnoc<T>(p: T -> bool, s: seq<T>, x: T)
    ensures Filter(p, s + [x]) == if p(x) then Filter(p, s) + [x] else Filter(p, s)
  {
    assert (s + [x])[..|s|] == s;
  }

  lemma MapSnoc<S, T>(f: S -> T, s: seq<S>, x: S)
    ensures Map(f, s + [x]) == Map(f, s) + [f(x)]
  {}

  lemma {:induction false} FilterMember<T>(p: T -> bool, s: seq<T>, x: T)
    ensures x in Filter(p, s) <==> x in s && p(x)
  {
    if s != [] {
      var n := |s| - 1;
      assert s == s[..n] + [s[n]];
      FilterMember(p, s[..n], x);
    }
  }

  lemma {:induction false} FilterAgree<T>(p: T -> bool, q: T -> bool, s: seq<T>)
    requires forall x :: x in s ==> p(x) == q(x)
    ensures Filter(p, s) == Filter(q, s)
  {
    if s != [] {
      var n := |s| - 1;
      assert s == s[..n] + [s[n]];
      FilterAgree(p, q, s[..n]);
    }
  }

  lemma {:induction false} FilterNone<T>(p: T -> bool, s: seq<T>)
    requires forall x :: x in s ==> !p(x)
    ensures Filter(p, s) == []
  {
    if s != [] {
      var n := |s| - 1;
      assert s == s[..n] + [s[n]];
      FilterNone(p, s[..n]);
    }
  }

  lemma {:induction false} FilterAll<T>(p: T -> bool, s: seq<T>)
    requires forall x :: x in s ==> p(x)
    ensures Filter(p, s) == s
  {
    if s != [] {
      var n := |s| - 1;
      assert s == s[..n] + [s[n]];
      FilterAll(p, s[..n]);
    }
  }

  lemma {:induction false} FilterConcat<T>(p: T -> bool, s: seq<T>, t: seq<T>)
    ensures Filter(p, s + t) == Filter(p, s) + Filter(p, t)
  {
    if t == [] {
      assert s + t == s;
    } else {
      var n := |t| - 1;
      assert (s + t)[..|s + t| - 1] == s + t[..n];
      FilterConcat(p, s, t[..n]);
    }
  }

  lemma FilterCons<T>(p: T -> bool, x: T, s: seq<T>)
    ensures Filter(p, [x] + s) == if p(x) then [x] + Filter(p, s) else Filter(p, s)
  {
    hide Filter;
    FilterConcat(p, [x], s);
    FilterSnoc(p, [], x);
    FilterNone(p, []);
    assert [] + [x] == [x] && [] + Filter(p, s) == Filter(p, s);
  }

  lemma {:induction false} FilterTwice<T>(p: T -> bool, q: T -> bool, pq: T -> bool, s: seq<T>)
    requires forall x :: x in s ==> pq(x) == (p(x) && q(x))
    ensures Filter(p, Filter(q, s)) == Filter(pq, s)
  {
    if s != [] {
      var n := |s| - 1;
      assert s == s[..n] + [s[n]];
      FilterTwice(p, q, pq, s[..n]);
      FilterConcat(p, Filter(q, s[..n]), if q(s[n]) then [s[n]] else []);
      if q(s[n]) {
        assert [s[n]][..0] == [];
      }
    }
  }

  lemma Cancel<T>(a: multiset<T>, b: multiset<T>, x: T)
    requires a + multiset{x} == b + multiset{x}
    ensures a == b
  {
    assert a == a + multiset{x} - multiset{x} && b == b + multiset{x} - multiset{x};
  }

  lemma MapPick<S, T>(g: S -> T, b: seq<S>, j: nat)
    requires j < |b|
    ensures var c := b[..j] + b[j + 1..];
            multiset(b) == multiset(c) + multiset{b[j]} && multiset(Map(g, b)) == multiset(Map(g, c)) + multiset{g(b[j])}
  {
    var c := b[..j] + b[j + 1..];
    assert b == b[..j] + [b[j]] + b[j + 1..];
    var m := Map(g, b);
    assert Map(g, c) == m[..j] + m[j + 1..];
    assert m == m[..j] + [m[j]] + m[j + 1..];
  }

  lemma {:induction false} MapPermuted<S, T>(g: S -> T, a: seq<S>, b: seq<S>)
    requires multiset(a) == multiset(b)
    ensures multiset(Map(g, a)) == multiset(Map(g, b))
  {
    assert |a| == |multiset(a)| == |b|;
    if a == [] {
      assert b == [];
    } else {
      hide Map;
      assert a[0] in multiset(b);
      var j :| 0 <= j < |b| && b[j] == a[0];
      MapPick(g, a, 0);
      MapPick(g, b, j);
      Cancel(multiset(a[..0] + a[1..]), multiset(b[..j] + b[j + 1..]), a[0]);
      MapPermuted(g, a[..0] + a[1..], b[..j] + b[j + 1..]);
    }
  }

  lemma {:induction false} DistinctCounts<T>(s: seq<T>, x: T)
    requires Distinct(s)
    ensures multiset(s)[x] <= 1
  {
    if s != [] {
      var n := |s| - 1;
      assert s == s[..n] + [s[n]];
      DistinctCounts(s[..n], x);
    }
  }

  lemma CountsDistinct<T(!new)>(s: seq<T>)
    requires forall x :: multiset(s)[x] <= 1
    ensures Distinct(s)
  {
    forall i, j | 0 <= i < j < |s| ensures s[i] != s[j] {
      assert s == s[..j] + [s[j]] + s[j + 1..];
      assert multiset(s)[s[j]] == multiset(s[..j])[s[j]] + 1 + multiset(s[j + 1..])[s[j]];
      assert s[..j][i] in multiset(s[..j]);
    }
  }

  lemma DistinctPermuted<T(!new)>(a: seq<T>, b: seq<T>)
    requires multiset(a) == multiset(b) && Distinct(a)
    ensures Distinct(b)
  {
    forall x ensures multiset(b)[x] <= 1 { DistinctCounts(a, x); }
    CountsDistinct(b);
  }

  /** Filtering what a map keeps. */
  lemma {:induction false} FilterMap<S, T>(p: T -> bool, g: S -> T, q: S -> bool, s: seq<S>)
    requires forall x :: x in s ==> p(g(x)) == q(x)
    ensures Filter(p, Map(g, s)) == Map(g, Filter(q, s))
  {
    hide Filter, Map;
    if s == [] {
      NothingFiltered(p, g, q);
    } else {
      var n := |s| - 1;
      assert s == s[..n] + [s[n]];
      FilterMap(p, g, q, s[..n]);
      MapSnoc(g, s[..n], s[n]);
      FilterSnoc(p, Map(g, s[..n]), g(s[n]));
      FilterSnoc(q, s[..n], s[n]);
      MapSnoc(g, Filter(q, s[..n]), s[n]);
    }
  }

  lemma NothingFiltered<S, T>(p: T -> bool, g: S -> T, q: S -> bool)
    ensures Filter(p, Map(g, [])) == Map(g, Filter(q, []))
  {}
}
