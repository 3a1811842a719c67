/** What intent resolution promises: nobody is left out, the order of the facts
    does not matter, tightening a request only removes alternatives, and money
    comes last. */
module IntentLaws {
  import opened Prelude
  import opened Seqs
  import opened Intent

  // ---------------------------------------------------------- the key order

  lemma {:induction false} LeqReflexive(a: seq<real>)
    ensures Leq(a, a)
  {
    if a != [] { LeqReflexive(a[1..]); }
  }

  lemma {:induction false} LeqTotal(a: seq<real>, b: seq<real>)
    ensures Leq(a, b) || Leq(b, a)
  {
    if a != [] && b != [] && a[0] == b[0] { LeqTotal(a[1..], b[1..]); }
  }

  lemma {:induction false} LeqTransitive(a: seq<real>, b: seq<real>, c: seq<real>)
    requires Leq(a, b) && Leq(b, c)
    ensures Leq(a, c)
  {
    if a != [] && a[0] == b[0] && b[0] == c[0] { LeqTransitive(a[1..], b[1..], c[1..]); }
  }

  lemma {:induction false} LeqAntisymmetric(a: seq<real>, b: seq<real>)
    requires Leq(a, b) && Leq(b, a)
    ensures a == b
  {
    if a != [] {
      LeqAntisymmetric(a[1..], b[1..]);
      assert a == [a[0]] + a[1..] && b == [b[0]] + b[1..];
    }
  }

  /** The key ends in the name, so equal keys mean equal names. */
  lemma KeyNames(p: Preference, f: ModelFacts, g: ModelFacts)
    requires Key(p, f) == Key(p, g)
    ensures f.endpoint == g.endpoint
  {
    var n := 2 + |PreferenceKey(p, f)|;
    assert Key(p, f)[n..] == Codes(f.endpoint);
    assert Key(p, g)[n..] == Codes(g.endpoint);
    forall i | 0 <= i < |f.endpoint| ensures f.endpoint[i] == g.endpoint[i] {
      assert Codes(f.endpoint)[i] == Codes(g.endpoint)[i];
    }
  }

  // ----------------------------------------------------------------- sorting

  predicate Below(p: Preference, t: seq<ModelFacts>, f: ModelFacts) {
    forall x :: x in t ==> Leq(Key(p, x), Key(p, f))
  }

  predicate Sorted(p: Preference, t: seq<ModelFacts>) {
    t == [] || (Below(p, t[..|t| - 1], t[|t| - 1]) && Sorted(p, t[..|t| - 1]))
  }

  lemma SortedSnoc(p: Preference, t: seq<ModelFacts>, f: ModelFacts)
    requires Sorted(p, t) && Below(p, t, f)
    ensures Sorted(p, t + [f])
  {
    assert (t + [f])[..|t|] == t;
  }

  /** What is above the last is above all. */
  lemma LastBelow(p: Preference, t: seq<ModelFacts>, f: ModelFacts)
    requires Sorted(p, t) && (t == [] || Leq(Key(p, t[|t| - 1]), Key(p, f)))
    ensures Below(p, t, f)
  {
    hide Key, Leq;
    forall x | x in t ensures Leq(Key(p, x), Key(p, f)) {
      var n := |t| - 1;
      assert t == t[..n] + [t[n]];
      if x != t[n] {
        LeqTransitive(Key(p, x), Key(p, t[n]), Key(p, f));
      }
    }
  }

  lemma {:induction false} InsertMultiset(p: Preference, t: seq<ModelFacts>, f: ModelFacts)
    ensures multiset(Insert(p, t, f)) == multiset(t) + multiset{f}
  {
    hide Key, Leq;
    if t != [] && !Leq(Key(p, t[|t| - 1]), Key(p, f)) {
      InsertMultiset(p, t[..|t| - 1], f);
      assert t == t[..|t| - 1] + [t[|t| - 1]];
    }
  }

  lemma {:induction false} InsertSorted(p: Preference, t: seq<ModelFacts>, f: ModelFacts)
    requires Sorted(p, t)
    ensures Sorted(p, Insert(p, t, f))
  {
    hide Key, Leq;
    if t == [] || Leq(Key(p, t[|t| - 1]), Key(p, f)) {
      LastBelow(p, t, f);
      SortedSnoc(p, t, f);
    } else {
      var n := |t| - 1;
      InsertSorted(p, t[..n], f);
      LeqTotal(Key(p, t[n]), Key(p, f));
      InsertMultiset(p, t[..n], f);
      forall x | x in Insert(p, t[..n], f) ensures Leq(Key(p, x), Key(p, t[n])) {
        assert x in multiset(Insert(p, t[..n], f));
      }
      SortedSnoc(p, Insert(p, t[..n], f), t[n]);
    }
  }

  lemma {:induction false} SortSorts(p: Preference, s: seq<ModelFacts>)
    ensures Sorted(p, Sort(p, s)) && multiset(Sort(p, s)) == multiset(s)
  {
    hide Key, Leq, Insert;
    if s != [] {
      var n := |s| - 1;
      SortSorts(p, s[..n]);
      InsertSorted(p, Sort(p, s[..n]), s[n]);
      InsertMultiset(p, Sort(p, s[..n]), s[n]);
      assert s == s[..n] + [s[n]];
    }
  }

  /** A stable sort commutes with filtering. */
  lemma {:induction false} InsertFilter(p: Preference, q: ModelFacts -> bool, t: seq<ModelFacts>, f: ModelFacts)
    requires Sorted(p, t)
    ensures Filter(q, Insert(p, t, f)) == if q(f) then Insert(p, Filter(q, t), f) else Filter(q, t)
  {
    hide Key, Leq, Filter;
    if t == [] || Leq(Key(p, t[|t| - 1]), Key(p, f)) {
      FilterSnoc(q, t, f);
      InsertLast(p, q, t, f);
    } else {
      var n := |t| - 1;
      assert t == t[..n] + [t[n]];
      InsertFilter(p, q, t[..n], f);
      FilterSnoc(q, t[..n], t[n]);
      FilterSnoc(q, Insert(p, t[..n], f), t[n]);
      var u := Filter(q, t[..n]);
      if q(t[n]) {
        assert (u + [t[n]])[..|u|] == u;
      }
    }
  }

  /** Nothing that was kept is greater than the greatest. */
  lemma InsertLast(p: Preference, q: ModelFacts -> bool, t: seq<ModelFacts>, f: ModelFacts)
    requires Sorted(p, t) && (t == [] || Leq(Key(p, t[|t| - 1]), Key(p, f)))
    ensures Insert(p, Filter(q, t), f) == Filter(q, t) + [f]
  {
    hide Key, Leq, Filter;
    var u := Filter(q, t);
    LastBelow(p, t, f);
    if u != [] {
      FilterMember(q, t, u[|u| - 1]);
    }
  }

  lemma {:induction false} SortFilter(p: Preference, q: ModelFacts -> bool, s: seq<ModelFacts>)
    ensures Sort(p, Filter(q, s)) == Filter(q, Sort(p, s))
  {
    hide Insert, Filter, Sorted, Sort;
    if s == [] {
      NothingToSort(p);
      FilterNone(q, []);
    } else {
      var n := |s| - 1;
      var u := Filter(q, s[..n]);
      assert s == s[..n] + [s[n]];
      SortFilter(p, q, s[..n]);
      SortSorts(p, s[..n]);
      InsertFilter(p, q, Sort(p, s[..n]), s[n]);
      FilterSnoc(q, s[..n], s[n]);
      SortSnoc(p, s[..n], s[n]);
      SortSnoc(p, u, s[n]);
    }
  }

  lemma NothingToSort(p: Preference)
    ensures Sort(p, []) == []
  {}

  lemma SortSnoc(p: Preference, s: seq<ModelFacts>, f: ModelFacts)
    ensures Sort(p, s + [f]) == Insert(p, Sort(p, s), f)
  {
    assert (s + [f])[..|s|] == s;
  }

  // -------------------------------------------------- the order of the facts

  lemma LastIsGreatest(p: Preference, a: seq<ModelFacts>, x: ModelFacts)
    requires Sorted(p, a) && x in a
    ensures Leq(Key(p, x), Key(p, a[|a| - 1]))
  {
    var n := |a| - 1;
    assert a == a[..n] + [a[n]];
    LeqReflexive(Key(p, a[n]));
  }

  lemma SameLast(p: Preference, a: seq<ModelFacts>, b: seq<ModelFacts>)
    requires a != [] && b != [] && Sorted(p, a) && Sorted(p, b) && multiset(a) == multiset(b) && Distinct(Names(a))
    ensures a[|a| - 1] == b[|b| - 1]
  {
    hide Key, Leq, Sorted;
    var x, y := a[|a| - 1], b[|b| - 1];
    assert x in multiset(a) && y in multiset(b);
    assert x in multiset(b) && y in multiset(a);
    LastIsGreatest(p, a, y);
    LastIsGreatest(p, b, x);
    LeqAntisymmetric(Key(p, x), Key(p, y));
    KeyNames(p, x, y);
    var j :| 0 <= j < |a| && a[j] == y;
    assert Names(a)[j] == Names(a)[|a| - 1];
  }

  lemma Chop<T>(a: seq<T>, b: seq<T>)
    requires a != [] && b != [] && a[|a| - 1] == b[|b| - 1] && multiset(a) == multiset(b)
    ensures multiset(a[..|a| - 1]) == multiset(b[..|b| - 1])
  {
    assert a == a[..|a| - 1] + [a[|a| - 1]] && b == b[..|b| - 1] + [b[|b| - 1]];
    Cancel(multiset(a[..|a| - 1]), multiset(b[..|b| - 1]), a[|a| - 1]);
  }

  lemma InitDistinct(a: seq<ModelFacts>)
    requires a != [] && Distinct(Names(a))
    ensures Distinct(Names(a[..|a| - 1]))
  {
    assert Names(a)[..|a| - 1] == Names(a[..|a| - 1]);
  }

  /** Two sorted arrangements of facts with distinct names are the same. */
  lemma {:induction false} SortedUnique(p: Preference, a: seq<ModelFacts>, b: seq<ModelFacts>)
    requires Sorted(p, a) && Sorted(p, b) && multiset(a) == multiset(b) && Distinct(Names(a))
    ensures a == b
  {
    hide Key, Leq, Below, Names, Distinct;
    assert |a| == |multiset(a)| == |b|;
    if a != [] {
      var n := |a| - 1;
      SameLast(p, a, b);
      Chop(a, b);
      InitDistinct(a);
      SortedUnique(p, a[..n], b[..n]);
      assert a == a[..n] + [a[n]] && b == b[..n] + [b[n]];
    }
  }

  lemma {:induction false} FilterMultiset(q: ModelFacts -> bool, a: seq<ModelFacts>, x: ModelFacts)
    ensures multiset(Filter(q, a))[x] == if q(x) then multiset(a)[x] else 0
  {
    if a != [] {
      var n := |a| - 1;
      assert a == a[..n] + [a[n]];
      FilterMultiset(q, a[..n], x);
    }
  }

  lemma FilterPermuted(q: ModelFacts -> bool, a: seq<ModelFacts>, b: seq<ModelFacts>)
    requires multiset(a) == multiset(b)
    ensures multiset(Filter(q, a)) == multiset(Filter(q, b))
  {
    forall x ensures multiset(Filter(q, a))[x] == multiset(Filter(q, b))[x] {
      FilterMultiset(q, a, x);
      FilterMultiset(q, b, x);
    }
  }

  lemma {:induction false} FilterDistinct(q: ModelFacts -> bool, a: seq<ModelFacts>)
    requires Distinct(Names(a))
    ensures Distinct(Names(Filter(q, a)))
  {
    if a != [] {
      var n := |a| - 1;
      assert Names(a)[..n] == Names(a[..n]);
      FilterDistinct(q, a[..n]);
      var u := Filter(q, a[..n]);
      forall i | 0 <= i < |u| ensures u[i].endpoint != a[n].endpoint {
        FilterMember(q, a[..n], u[i]);
        var j :| 0 <= j < n && a[j] == u[i];
        assert Names(a)[j] == u[i].endpoint && Names(a)[n] == a[n].endpoint;
      }
      assert Names(u + [a[n]]) == Names(u) + [a[n].endpoint];
    }
  }

  lemma PermutedNames(a: seq<ModelFacts>, b: seq<ModelFacts>, n: string)
    requires multiset(a) == multiset(b) && n in Names(a)
    ensures n in Names(b)
  {
    var i :| 0 <= i < |a| && a[i].endpoint == n;
    assert a[i] in multiset(b);
    var j :| 0 <= j < |b| && b[j] == a[i];
    assert Names(b)[j] == n;
  }

  lemma SameUnmatched(i: Intent, a: seq<ModelFacts>, b: seq<ModelFacts>)
    requires multiset(a) == multiset(b)
    ensures Unmatched(i, a) == Unmatched(i, b)
  {
    forall n ensures n in Names(a) <==> n in Names(b) {
      if n in Names(a) { PermutedNames(a, b, n); }
      if n in Names(b) { PermutedNames(b, a, n); }
    }
    FilterAgree(Absent(Names(a)), Absent(Names(b)), i.excludePairs);
  }

  /** With distinct names, the ranking does not depend on the order of the facts. */
  lemma RankingPermuted(i: Intent, a: seq<ModelFacts>, b: seq<ModelFacts>)
    requires multiset(a) == multiset(b) && Distinct(Names(a))
    ensures Ranking(i, a) == Ranking(i, b)
  {
    hide Key, Leq, Sort, Filter;
    var ea, eb := Filter(Passing(i), Candidates(i, a)), Filter(Passing(i), Candidates(i, b));
    FilterPermuted(Pinned(i), a, b);
    FilterPermuted(Passing(i), Candidates(i, a), Candidates(i, b));
    SortSorts(i.prefer, ea);
    SortSorts(i.prefer, eb);
    FilterDistinct(Pinned(i), a);
    FilterDistinct(Passing(i), Candidates(i, a));
    NamesPermuted(ea, Sort(i.prefer, ea));
    SortedUnique(i.prefer, Sort(i.prefer, ea), Sort(i.prefer, eb));
  }

  lemma NamesPermuted(a: seq<ModelFacts>, b: seq<ModelFacts>)
    requires multiset(a) == multiset(b) && Distinct(Names(a))
    ensures Distinct(Names(b))
  {
    MapPermuted((f: ModelFacts) => f.endpoint, a, b);
    DistinctPermuted(Names(a), Names(b));
  }

  /** With distinct names the choice, the alternatives in their order, and whether
      it is refused do not depend on the order of the facts. */
  lemma OrderOfFactsIsFree(i: Intent, a: seq<ModelFacts>, b: seq<ModelFacts>)
    requires multiset(a) == multiset(b) && Distinct(Names(a))
    ensures var r, s := Resolved(i, a), Resolved(i, b);
            r.endpoint == s.endpoint && r.ranked == s.ranked && r.unmatched == s.unmatched
            && multiset(r.rejected) == multiset(s.rejected)
  {
    hide Ranking, Filter, Unmatched;
    SameUnmatched(i, a, b);
    RankingPermuted(i, a, b);
    FilterPermuted(Pinned(i), a, b);
    var ca, cb := Candidates(i, a), Candidates(i, b);
    assert |ca| == |multiset(ca)| == |cb|;
    FilterPermuted(Failing(i), ca, cb);
    MapPermuted(Rejecting(i), Filter(Failing(i), ca), Filter(Failing(i), cb));
  }

  // ------------------------------------------------------- nobody is left out

  lemma {:induction false} SplitNames(q: ModelFacts -> bool, r: ModelFacts -> bool, s: seq<ModelFacts>)
    requires forall f :: f in s ==> q(f) == !r(f)
    ensures multiset(Names(s)) == multiset(Names(Filter(q, s))) + multiset(Names(Filter(r, s)))
  {
    hide Names, Filter;
    if s == [] {
      assert multiset(Names(s)) == multiset{} && Filter(q, s) == [] && Filter(r, s) == [] by { NoNames(q, r); }
    } else {
      var n := |s| - 1;
      assert s == s[..n] + [s[n]];
      SplitNames(q, r, s[..n]);
      FilterSnoc(q, s[..n], s[n]);
      FilterSnoc(r, s[..n], s[n]);
      NamesSnoc(s[..n], s[n]);
      NamesSnoc(Filter(q, s[..n]), s[n]);
      NamesSnoc(Filter(r, s[..n]), s[n]);
    }
  }

  lemma NoNames(q: ModelFacts -> bool, r: ModelFacts -> bool)
    ensures Names([]) == [] && Filter(q, []) == [] && Filter(r, []) == []
  {}

  lemma NamesSnoc(s: seq<ModelFacts>, f: ModelFacts)
    ensures multiset(Names(s + [f])) == multiset(Names(s)) + multiset{f.endpoint}
  {
    assert Names(s + [f]) == Names(s) + [f.endpoint];
  }

  function Whose(s: seq<Rejection>): seq<string> {
    Map((r: Rejection) => r.endpoint, s)
  }

  /** Past the two refusals for unknown names, every candidate is either ranked or
      rejected, and exactly once; the ranked ones fail no constraint and are in
      order; a rejection states a constraint that its endpoint fails, and the
      first in order that it does. */
  lemma EveryCandidateOnce(i: Intent, facts: seq<ModelFacts>)
    requires Unmatched(i, facts) == [] && (Strip(i.pin) == "" || Candidates(i, facts) != [])
    ensures var r := Resolved(i, facts);
            && multiset(r.ranked) + multiset(Whose(r.rejected)) == multiset(Names(Candidates(i, facts)))
            && r.ranked == Names(Ranking(i, facts)) && Sorted(i.prefer, Ranking(i, facts))
            && (forall f :: f in Ranking(i, facts) <==> f in facts && Pinned(i)(f) && Verdict(i, f) == None)
            && (forall x :: x in r.rejected ==>
                  exists f :: f in facts && Pinned(i)(f) && x.endpoint == f.endpoint && Verdict(i, f) == Some(x.reason))
  {
    hide Filter, Sort, Verdict, Unmatched, Strip, Sorted;
    var cs := Candidates(i, facts);
    var ok, no := Filter(Passing(i), cs), Filter(Failing(i), cs);
    SplitNames(Passing(i), Failing(i), cs);
    SortSorts(i.prefer, ok);
    MapPermuted((f: ModelFacts) => f.endpoint, ok, Sort(i.prefer, ok));
    assert Whose(Map(Rejecting(i), no)) == Names(no);
    forall f ensures f in Ranking(i, facts) <==> f in facts && Pinned(i)(f) && Verdict(i, f) == None {
      assert f in Ranking(i, facts) <==> f in multiset(ok);
      FilterMember(Passing(i), cs, f);
      FilterMember(Pinned(i), facts, f);
    }
    RejectedBecause(i, facts);
  }

  lemma RejectedBecause(i: Intent, facts: seq<ModelFacts>)
    ensures forall x :: x in Map(Rejecting(i), Filter(Failing(i), Candidates(i, facts))) ==>
              exists f :: f in facts && Pinned(i)(f) && x.endpoint == f.endpoint && Verdict(i, f) == Some(x.reason)
  {
    hide Filter, Verdict, Strip;
    var no := Filter(Failing(i), Candidates(i, facts));
    forall x | x in Map(Rejecting(i), no)
      ensures exists f :: f in facts && Pinned(i)(f) && x.endpoint == f.endpoint && Verdict(i, f) == Some(x.reason)
    {
      var k :| 0 <= k < |no| && Map(Rejecting(i), no)[k] == x;
      FilterMember(Failing(i), Candidates(i, facts), no[k]);
      FilterMember(Pinned(i), facts, no[k]);
    }
  }

  // ------------------------------------------------------ tightening a request

  /** `j` asks for everything `i` asks for, and perhaps more. */
  predicate Tightens(j: Intent, i: Intent) {
    && j.kind == i.kind && j.prefer == i.prefer
    && i.needs <= j.needs && i.minContext <= j.minContext && i.exclude <= j.exclude
    && (Strip(i.pin) == "" || Strip(i.pin) == Strip(j.pin))
    && (forall x :: x in i.excludePairs ==> x in j.excludePairs)
  }

  function Serves(i: Intent): ModelFacts -> bool {
    (f: ModelFacts) => Pinned(i)(f) && Passing(i)(f)
  }

  lemma RankingIsFiltered(i: Intent, facts: seq<ModelFacts>)
    ensures Ranking(i, facts) == Filter(Serves(i), Sort(i.prefer, facts))
  {
    hide Sort, Filter, Verdict, Strip;
    FilterTwice(Passing(i), Pinned(i), Serves(i), facts);
    SortFilter(i.prefer, Serves(i), facts);
  }

  /** Adding requirements, a context floor, exclusions or a pin leaves exactly the
      old alternatives that still serve, in their old order. */
  lemma TighteningFilters(i: Intent, j: Intent, facts: seq<ModelFacts>)
    requires Tightens(j, i)
    ensures Ranking(j, facts) == Filter(Serves(j), Ranking(i, facts))
  {
    hide Sort, Filter, Strip;
    RankingIsFiltered(i, facts);
    RankingIsFiltered(j, facts);
    forall f | Serves(j)(f) ensures Serves(i)(f) { StillServes(i, j, f); }
    FilterTwice(Serves(j), Serves(i), Serves(j), Sort(i.prefer, facts));
  }

  /** The names in the first list are names in the second, in the same order. */
  predicate Subsequence(a: seq<string>, b: seq<string>) {
    a == [] || (b != [] &&
      (if a[|a| - 1] == b[|b| - 1] then Subsequence(a[..|a| - 1], b[..|b| - 1]) else Subsequence(a, b[..|b| - 1])))
  }

  lemma {:induction false} FilteredNames(q: ModelFacts -> bool, s: seq<ModelFacts>)
    ensures Subsequence(Names(Filter(q, s)), Names(s))
  {
    hide Filter, Subsequence;
    if s == [] {
      FilterNone(q, s);
      NothingFirst([]);
      assert Names([]) == [];
    } else {
      var n := |s| - 1;
      FilteredNames(q, s[..n]);
      var u := Filter(q, s[..n]);
      assert s == s[..n] + [s[n]];
      FilterSnoc(q, s[..n], s[n]);
      assert Names(s) == Names(s[..n]) + [s[n].endpoint];
      if q(s[n]) {
        assert Names(u + [s[n]]) == Names(u) + [s[n].endpoint];
        BothEnd(Names(u), Names(s[..n]), s[n].endpoint);
      } else {
        Widen(Names(u), Names(s[..n]), s[n].endpoint);
      }
    }
  }

  lemma BothEnd(a: seq<string>, b: seq<string>, x: string)
    requires Subsequence(a, b)
    ensures Subsequence(a + [x], b + [x])
  {
    assert (a + [x])[..|a|] == a && (b + [x])[..|b|] == b;
  }

  lemma {:induction false} DropLastOf(a: seq<string>, b: seq<string>)
    requires Subsequence(a, b) && a != []
    ensures Subsequence(a[..|a| - 1], b)
    decreases |b|, 0
  {
    var n := |b| - 1;
    if a[|a| - 1] == b[n] {
      Widen(a[..|a| - 1], b[..n], b[n]);
      assert b == b[..n] + [b[n]];
    } else {
      DropLastOf(a, b[..n]);
      Widen(a[..|a| - 1], b[..n], b[n]);
      assert b == b[..n] + [b[n]];
    }
  }

  lemma {:induction false} Widen(a: seq<string>, b: seq<string>, x: string)
    requires Subsequence(a, b)
    ensures Subsequence(a, b + [x])
    decreases |b|, 1
  {
    assert (b + [x])[..|b|] == b;
    if a != [] && a[|a| - 1] == x {
      DropLastOf(a, b);
    }
  }

  /** What `resolve` returns for a tighter request is a subsequence of what it
      returned before, also when an added exclusion or pin names nothing, which
      leaves nothing. */
  lemma TighterIsSubsequence(i: Intent, j: Intent, facts: seq<ModelFacts>)
    requires Tightens(j, i)
    ensures Subsequence(Resolved(j, facts).ranked, Resolved(i, facts).ranked)
  {
    hide Filter, Strip, Ranking, Unmatched, Subsequence;
    TighteningFilters(i, j, facts);
    FilteredNames(Serves(j), Ranking(i, facts));
    NothingFirst(Resolved(i, facts).ranked);
    StillUnmatched(i, j, facts);
    RankedOrNone(i, facts);
    RankedOrNone(j, facts);
    if Strip(i.pin) != "" && Candidates(i, facts) == [] {
      NoCandidates(i, facts);
      NoCandidates(j, facts);
    }
  }

  lemma StillUnmatched(i: Intent, j: Intent, facts: seq<ModelFacts>)
    requires Tightens(j, i)
    ensures Unmatched(i, facts) != [] ==> Unmatched(j, facts) != [] && Resolved(j, facts).ranked == []
  {
    hide Filter;
    var p := Absent(Names(facts));
    if Filter(p, i.excludePairs) != [] {
      var x := Filter(p, i.excludePairs)[0];
      FilterMember(p, i.excludePairs, x);
      FilterMember(p, j.excludePairs, x);
      assert Filter(p, j.excludePairs) != [];
    }
  }

  lemma NothingFirst(b: seq<string>)
    ensures Subsequence([], b)
  {}

  lemma RankedOrNone(i: Intent, facts: seq<ModelFacts>)
    ensures Resolved(i, facts).ranked == [] || Resolved(i, facts).ranked == Names(Ranking(i, facts))
    ensures Unmatched(i, facts) == [] && !(Strip(i.pin) != "" && Candidates(i, facts) == []) ==>
              Resolved(i, facts).ranked == Names(Ranking(i, facts))
  {}

  lemma NoCandidates(i: Intent, facts: seq<ModelFacts>)
    ensures Candidates(i, facts) == [] ==> Ranking(i, facts) == []
  {
    if Candidates(i, facts) == [] {
      FilterNone(Passing(i), []);
      NothingToSort(i.prefer);
    }
  }

  lemma StillServes(i: Intent, j: Intent, f: ModelFacts)
    requires Tightens(j, i) && Serves(j)(f)
    ensures Serves(i)(f)
  {
    assert Pinned(j)(f) && Verdict(j, f) == None;
    assert j.needs - f.capabilities == {};
    assert i.needs - f.capabilities == {};
    assert Verdict(i, f) == None;
    assert Pinned(i)(f) && Passing(i)(f);
  }

  // ------------------------------------------------------------- money is last

  function Local(): ModelFacts -> bool {
    (f: ModelFacts) => !f.realCost
  }

  function Paid(): ModelFacts -> bool {
    (f: ModelFacts) => f.realCost
  }

  lemma PaidIsGreater(p: Preference, f: ModelFacts, g: ModelFacts)
    requires f.realCost && !g.realCost
    ensures !Leq(Key(p, f), Key(p, g))
  {
    assert Key(p, f)[0] == 1.0 && Key(p, g)[0] == 0.0;
  }

  /** In sorted facts the local ones come first. */
  lemma {:induction false} SortedSplits(p: Preference, t: seq<ModelFacts>)
    requires Sorted(p, t)
    ensures t == Filter(Local(), t) + Filter(Paid(), t)
  {
    hide Key, Leq, Filter;
    if t == [] {
      FilterNone(Local(), t);
      FilterNone(Paid(), t);
    } else {
      var n := |t| - 1;
      assert t == t[..n] + [t[n]];
      SortedSplits(p, t[..n]);
      FilterSnoc(Local(), t[..n], t[n]);
      FilterSnoc(Paid(), t[..n], t[n]);
      if !t[n].realCost {
        forall f | f in t[..n] ensures !Paid()(f) {
          if f.realCost { PaidIsGreater(p, f, t[n]); }
        }
        FilterNone(Paid(), t[..n]);
      }
    }
  }

  /** Under every preference the ranking is the ranking of the local endpoints
      alone, followed by the ranking of the ones that cost money. */
  lemma LocalFirst(i: Intent, facts: seq<ModelFacts>)
    ensures Ranking(i, facts) == Ranking(i, Filter(Local(), facts)) + Ranking(i, Filter(Paid(), facts))
  {
    hide Sort, Filter, Verdict, Strip, Sorted;
    var t := Sort(i.prefer, facts);
    SortSorts(i.prefer, facts);
    SortedSplits(i.prefer, t);
    RankingIsFiltered(i, facts);
    RankingIsFiltered(i, Filter(Local(), facts));
    RankingIsFiltered(i, Filter(Paid(), facts));
    SortFilter(i.prefer, Local(), facts);
    SortFilter(i.prefer, Paid(), facts);
    FilterConcat(Serves(i), Filter(Local(), t), Filter(Paid(), t));
  }

  /** Whatever paid endpoints are added or removed, anywhere in the facts, the
      choice stays the same while a local endpoint is eligible. */
  lemma PaidNeverDisplaces(i: Intent, small: seq<ModelFacts>, big: seq<ModelFacts>)
    requires Filter(Local(), small) == Filter(Local(), big)
    requires Unmatched(i, small) == [] && Unmatched(i, big) == []
    requires exists f :: f in small && !f.realCost && Serves(i)(f)
    ensures Resolved(i, small).endpoint == Resolved(i, big).endpoint
    ensures var locals := Ranking(i, Filter(Local(), small));
            locals != [] && Resolved(i, big).endpoint == Some(locals[0].endpoint)
  {
    hide Filter, Verdict, Strip, Unmatched, Ranking;
    var f :| f in small && !f.realCost && Serves(i)(f);
    LocalFirst(i, small);
    LocalFirst(i, big);
    FilterMember(Local(), small, f);
    FilterMember(Local(), big, f);
    InRanking(i, Filter(Local(), small), f);
    FilterMember(Pinned(i), small, f);
    FilterMember(Pinned(i), big, f);
  }

  lemma InRanking(i: Intent, facts: seq<ModelFacts>, f: ModelFacts)
    requires f in facts && Serves(i)(f)
    ensures f in Ranking(i, facts)
  {
    hide Sort, Filter, Verdict, Strip;
    var ok := Filter(Passing(i), Candidates(i, facts));
    FilterMember(Pinned(i), facts, f);
    FilterMember(Passing(i), Candidates(i, facts), f);
    SortSorts(i.prefer, ok);
    assert f in multiset(ok);
  }

  // ------------------------------------------------- what the preferences mean

  /** Known and shorter, or known where the other is not. */
  predicate Faster(f: ModelFacts, g: ModelFacts) {
    f.typicalMs > 0.0 && (g.typicalMs <= 0.0 || f.typicalMs < g.typicalMs)
  }

  predicate AsFast(f: ModelFacts, g: ModelFacts) {
    f.typicalMs == g.typicalMs || (f.typicalMs <= 0.0 && g.typicalMs <= 0.0)
  }

  predicate Roomier(f: ModelFacts, g: ModelFacts) {
    FreeSlots(f) > FreeSlots(g)
  }

  predicate HasRoom(f: ModelFacts) {
    f.maxSlots > f.inFlight
  }

  /** What a caller asked for decides between two endpoints. */
  predicate Preferred(p: Preference, f: ModelFacts, g: ModelFacts) {
    match p
    case Latency => Faster(f, g) || (AsFast(f, g) && Roomier(f, g))
    case Capacity => Roomier(f, g) || (FreeSlots(f) == FreeSlots(g) && Faster(f, g))
    case Context => f.context > g.context || (f.context == g.context && Faster(f, g))
    case Cost =>
      || f.inputUsd + f.outputUsd < g.inputUsd + g.outputUsd
      || (f.inputUsd + f.outputUsd == g.inputUsd + g.outputUsd && Faster(f, g))
    case Balanced =>
      || (HasRoom(f) && !HasRoom(g))
      || (HasRoom(f) == HasRoom(g) && (Faster(f, g) || (AsFast(f, g) && Roomier(f, g))))
  }

  /** Alphabetical order, a shorter name before a longer one that begins with it. */
  predicate NameLess(a: string, b: string) {
    b != "" && (a == "" || a[0] < b[0] || (a[0] == b[0] && NameLess(a[1..], b[1..])))
  }

  /** One endpoint is to be ranked before the other: it costs no money and the
      other does; or it alone is healthy; or it is preferred; or, where nothing else
      decides, its name comes first. */
  predicate Beats(p: Preference, f: ModelFacts, g: ModelFacts) {
    || (!f.realCost && g.realCost)
    || (f.realCost == g.realCost && f.healthy && !g.healthy)
    || (f.realCost == g.realCost && f.healthy == g.healthy && Preferred(p, f, g))
    || (f.realCost == g.realCost && f.healthy == g.healthy && !Preferred(p, g, f)
        && NameLess(f.endpoint, g.endpoint))
  }

  /** Lexicographic comparison, one position at a time. */
  lemma LeqCons(x: real, a: seq<real>, y: real, b: seq<real>)
    ensures Leq([x] + a, [y] + b) <==> x < y || (x == y && Leq(a, b))
  {
    assert ([x] + a)[1..] == a && ([y] + b)[1..] == b;
  }

  lemma LeqLatency(f: ModelFacts, g: ModelFacts, a: seq<real>, b: seq<real>)
    ensures Faster(g, f) ==> !Leq(LatencyKey(f) + a, LatencyKey(g) + b)
    ensures AsFast(f, g) ==> (Leq(LatencyKey(f) + a, LatencyKey(g) + b) <==> Leq(a, b))
    ensures Faster(f, g) || Faster(g, f) || AsFast(f, g)
  {
    hide Leq;
    var k, l := LatencyKey(f), LatencyKey(g);
    assert k + a == [k[0]] + ([k[1]] + a) && l + b == [l[0]] + ([l[1]] + b);
    LeqCons(k[0], [k[1]] + a, l[0], [l[1]] + b);
    LeqCons(k[1], a, l[1], b);
  }

  /** A number decides, then the latency. */
  lemma NumberThenLatency(x: real, f: ModelFacts, a: seq<real>, y: real, g: ModelFacts, b: seq<real>)
    requires x < y || (x == y && Faster(f, g))
    ensures !Leq([y] + (LatencyKey(g) + b), [x] + (LatencyKey(f) + a))
  {
    hide Leq, LatencyKey;
    LeqCons(y, LatencyKey(g) + b, x, LatencyKey(f) + a);
    LeqLatency(g, f, b, a);
  }

  /** The latency decides, then the room. */
  lemma LatencyThenRoom(f: ModelFacts, a: seq<real>, g: ModelFacts, b: seq<real>)
    requires Faster(f, g) || (AsFast(f, g) && Roomier(f, g))
    ensures !Leq(LatencyKey(g) + ([Room(g)] + b), LatencyKey(f) + ([Room(f)] + a))
  {
    hide Leq, LatencyKey;
    LeqLatency(g, f, [Room(g)] + b, [Room(f)] + a);
    LeqCons(Room(g), b, Room(f), a);
  }

  lemma PreferredFirst(p: Preference, f: ModelFacts, g: ModelFacts, a: seq<real>, b: seq<real>)
    requires Preferred(p, f, g)
    ensures !Leq(PreferenceKey(p, g) + b, PreferenceKey(p, f) + a)
  {
    hide Leq, LatencyKey, Faster, AsFast;
    var k, l := LatencyKey(g), LatencyKey(f);
    match p {
      case Latency =>
        assert k + [Room(g)] + b == k + ([Room(g)] + b) && l + [Room(f)] + a == l + ([Room(f)] + a);
        LatencyThenRoom(f, a, g, b);
      case Capacity =>
        assert [Room(g)] + k + b == [Room(g)] + (k + b) && [Room(f)] + l + a == [Room(f)] + (l + a);
        NumberThenLatency(Room(f), f, a, Room(g), g, b);
      case Context =>
        var x, y := -(f.context as real), -(g.context as real);
        assert [y] + k + b == [y] + (k + b) && [x] + l + a == [x] + (l + a);
        NumberThenLatency(x, f, a, y, g, b);
      case Cost =>
        var x, y := f.inputUsd + f.outputUsd, g.inputUsd + g.outputUsd;
        assert [y] + k + b == [y] + (k + b) && [x] + l + a == [x] + (l + a);
        NumberThenLatency(x, f, a, y, g, b);
      case Balanced => BalancedFirst(f, a, g, b);
    }
  }

  lemma BalancedFirst(f: ModelFacts, a: seq<real>, g: ModelFacts, b: seq<real>)
    requires Preferred(Balanced, f, g)
    ensures !Leq(PreferenceKey(Balanced, g) + b, PreferenceKey(Balanced, f) + a)
  {
    hide Leq, LatencyKey, Faster, AsFast;
    var k, l := LatencyKey(g), LatencyKey(f);
    var x, y := if FreeSlots(f) > 0 then 0.0 else 1.0, if FreeSlots(g) > 0 then 0.0 else 1.0;
    assert PreferenceKey(Balanced, g) + b == [y] + (k + ([Room(g)] + b));
    assert PreferenceKey(Balanced, f) + a == [x] + (l + ([Room(f)] + a));
    LeqCons(y, k + ([Room(g)] + b), x, l + ([Room(f)] + a));
    if x == y { LatencyThenRoom(f, a, g, b); }
  }

  lemma {:induction false} NamesByCodes(a: string, b: string)
    requires NameLess(a, b)
    ensures !Leq(Codes(b), Codes(a))
  {
    if a != "" && a[0] == b[0] {
      NamesByCodes(a[1..], b[1..]);
      assert Codes(a)[1..] == Codes(a[1..]) && Codes(b)[1..] == Codes(b[1..]);
    }
  }

  /** Where neither is preferred, the keys do not tell them apart. */
  lemma TiedKeys(p: Preference, f: ModelFacts, g: ModelFacts)
    requires !Preferred(p, f, g) && !Preferred(p, g, f)
    ensures PreferenceKey(p, f) == PreferenceKey(p, g)
  {}

  lemma {:induction false} LeqSamePrefix(k: seq<real>, a: seq<real>, b: seq<real>)
    ensures Leq(k + a, k + b) <==> Leq(a, b)
  {
    if k == [] {
      assert k + a == a && k + b == b;
    } else {
      assert (k + a)[1..] == k[1..] + a && (k + b)[1..] == k[1..] + b;
      LeqSamePrefix(k[1..], a, b);
    }
  }

  lemma BeatsKey(p: Preference, f: ModelFacts, g: ModelFacts)
    requires Beats(p, f, g)
    ensures !Leq(Key(p, g), Key(p, f))
  {
    hide Leq, PreferenceKey, Preferred, Codes;
    var m, n := if g.realCost then 1.0 else 0.0, if f.realCost then 1.0 else 0.0;
    var x, y := if g.healthy then 0.0 else 1.0, if f.healthy then 0.0 else 1.0;
    var s, t := PreferenceKey(p, g) + Codes(g.endpoint), PreferenceKey(p, f) + Codes(f.endpoint);
    assert Key(p, g) == [m] + ([x] + s) && Key(p, f) == [n] + ([y] + t);
    LeqCons(m, [x] + s, n, [y] + t);
    LeqCons(x, s, y, t);
    if Preferred(p, f, g) {
      PreferredFirst(p, f, g, Codes(f.endpoint), Codes(g.endpoint));
    } else if !Preferred(p, g, f) && NameLess(f.endpoint, g.endpoint) {
      TiedKeys(p, f, g);
      NamesByCodes(f.endpoint, g.endpoint);
      LeqSamePrefix(PreferenceKey(p, f), Codes(g.endpoint), Codes(f.endpoint));
    }
  }

  lemma {:induction false} SortedPair(p: Preference, t: seq<ModelFacts>, i: nat, j: nat)
    requires Sorted(p, t) && i < j < |t|
    ensures Leq(Key(p, t[i]), Key(p, t[j]))
  {
    hide Key, Leq;
    var n := |t| - 1;
    if j < n {
      SortedPair(p, t[..n], i, j);
    } else {
      assert t[..n][i] == t[i];
    }
  }

  /** Whatever the request prefers, no alternative is ranked before one that beats
      it: money first, then health, then the stated preference, with an unmeasured
      latency counting as the slowest, then the name. */
  lemma NobodyBeatenFirst(i: Intent, facts: seq<ModelFacts>, a: nat, b: nat)
    requires a < b < |Ranking(i, facts)|
    ensures !Beats(i.prefer, Ranking(i, facts)[b], Ranking(i, facts)[a])
  {
    hide Key, Leq, Sort, Filter, Beats;
    SortSorts(i.prefer, Filter(Passing(i), Candidates(i, facts)));
    SortedPair(i.prefer, Ranking(i, facts), a, b);
    if Beats(i.prefer, Ranking(i, facts)[b], Ranking(i, facts)[a]) {
      BeatsKey(i.prefer, Ranking(i, facts)[b], Ranking(i, facts)[a]);
      assert false;
    }
  }
}
