/** What a resolution says, spelled out: who is ranked, who is rejected and for which
    reason, and the two refusals for names that are not there. */
module IntentReasons {
  import opened Prelude
  import opened Seqs
  import opened Intent
  import opened IntentLaws

  /** Stripping takes the white space off both ends, and nothing else. */
  lemma StripMeans(s: string) returns (a: string, b: string)
    ensures IsBlank(a) && IsBlank(b) && s == a + Strip(s) + b
    ensures Strip(s) != "" ==> !IsPySpace(Strip(s)[0]) && !IsPySpace(Strip(s)[|Strip(s)| - 1])
  {
    hide IsPySpace, IsBlank, RStrip, LStrip;
    var r := RStrip(s);
    RightMeans(s);
    LeftMeans(r);
    a, b := r[..|r| - |LStrip(r)|], s[|r|..];
  }

  lemma {:induction false} RightMeans(s: string)
    ensures var r := RStrip(s);
            && |r| <= |s| && r == s[..|r|] && IsBlank(s[|r|..]) && (r != "" ==> !IsPySpace(r[|r| - 1]))
  {
    hide IsPySpace;
    if s != "" && IsPySpace(s[|s| - 1]) {
      var n := |s| - 1;
      RightMeans(s[..n]);
      assert s[|RStrip(s)|..] == s[..n][|RStrip(s)|..] + [s[n]];
    } else {
      assert s[|s|..] == "" && s[..|s|] == s;
    }
  }

  lemma {:induction false} LeftMeans(s: string)
    ensures var r := LStrip(s);
            && |r| <= |s| && r == s[|s| - |r|..] && IsBlank(s[..|s| - |r|]) && (r != "" ==> !IsPySpace(r[0]))
  {
    hide IsPySpace;
    if s != "" && IsPySpace(s[0]) {
      LeftMeans(s[1..]);
      var k := |s| - |LStrip(s)|;
      assert s[..k] == [s[0]] + s[1..][..k - 1] && s[k..] == s[1..][k - 1..];
    } else {
      assert s[0..] == s && s[..0] == "";
    }
  }

  /** The endpoint is the pinned one, if one is pinned. */
  predicate Asked(i: Intent, f: ModelFacts) {
    Strip(i.pin) == "" || f.endpoint == Strip(i.pin)
  }

  predicate Capable(i: Intent, f: ModelFacts) {
    forall n :: n in i.needs ==> n in f.capabilities
  }

  /** The context is unknown, or at least the floor. */
  predicate Roomy(i: Intent, f: ModelFacts) {
    f.context == 0 || f.context >= i.minContext || i.minContext == 0
  }

  predicate Suits(i: Intent, f: ModelFacts) {
    f.endpoint !in i.exclude && f.routed && f.kind == i.kind && Capable(i, f) && Roomy(i, f)
  }

  /** A reason applies when its constraint fails and all earlier ones hold. */
  predicate Applies(i: Intent, f: ModelFacts, reason: Reason) {
    match reason
    case Excluded => f.endpoint in i.exclude
    case NotRouted => f.endpoint !in i.exclude && !f.routed
    case WrongKind => f.endpoint !in i.exclude && f.routed && f.kind != i.kind
    case MissingCapability => f.endpoint !in i.exclude && f.routed && f.kind == i.kind && !Capable(i, f)
    case ContextTooSmall =>
      f.endpoint !in i.exclude && f.routed && f.kind == i.kind && Capable(i, f) && !Roomy(i, f)
    case UnknownEndpoint => false
  }

  lemma VerdictMeans(i: Intent, f: ModelFacts)
    ensures Verdict(i, f) == None <==> Suits(i, f)
    ensures forall r :: Verdict(i, f) == Some(r) <==> Applies(i, f, r)
  {
    assert i.needs - f.capabilities == {} <==> Capable(i, f) by {
      if !Capable(i, f) {
        var n :| n in i.needs && n !in f.capabilities;
        assert n in i.needs - f.capabilities;
      }
    }
  }

  ghost predicate Present(facts: seq<ModelFacts>, name: string) {
    exists f :: f in facts && f.endpoint == name
  }

  lemma NamesArePresent(facts: seq<ModelFacts>, name: string)
    ensures name in Names(facts) <==> Present(facts, name)
  {
    if name in Names(facts) {
      var i :| 0 <= i < |facts| && Names(facts)[i] == name;
      assert facts[i] in facts;
    }
    if Present(facts, name) {
      var f :| f in facts && f.endpoint == name;
      var i :| 0 <= i < |facts| && facts[i] == f;
      assert Names(facts)[i] == name;
    }
  }

  /** All exclusions and the pin name something that is there. */
  ghost predicate NamesKnown(i: Intent, facts: seq<ModelFacts>) {
    && (forall x :: x in i.excludePairs ==> Present(facts, x.0))
    && (Strip(i.pin) == "" || Present(facts, Strip(i.pin)))
  }

  lemma UnmatchedMeans(i: Intent, facts: seq<ModelFacts>, w: string)
    ensures w in Unmatched(i, facts) <==> exists x :: x in i.excludePairs && x.1 == w && !Present(facts, x.0)
  {
    hide Filter, Present;
    var p := Absent(Names(facts));
    var a := Filter(p, i.excludePairs);
    forall x: (string, string) ensures x in a <==> x in i.excludePairs && !Present(facts, x.0) {
      FilterMember(p, i.excludePairs, x);
      NamesArePresent(facts, x.0);
    }
    if w in Unmatched(i, facts) {
      var k :| 0 <= k < |a| && Unmatched(i, facts)[k] == w;
      assert a[k] in a;
    }
    if x :| x in i.excludePairs && x.1 == w && !Present(facts, x.0) {
      var k :| 0 <= k < |a| && a[k] == x;
      assert Unmatched(i, facts)[k] == w;
    }
  }

  lemma UnmatchedNone(i: Intent, facts: seq<ModelFacts>)
    ensures Unmatched(i, facts) == [] <==> forall x :: x in i.excludePairs ==> Present(facts, x.0)
  {
    hide Unmatched, Present;
    if Unmatched(i, facts) != [] {
      UnmatchedMeans(i, facts, Unmatched(i, facts)[0]);
    }
    forall x | x in i.excludePairs && !Present(facts, x.0) ensures Unmatched(i, facts) != [] {
      UnmatchedMeans(i, facts, x.1);
    }
  }

  lemma CandidatesNone(i: Intent, facts: seq<ModelFacts>)
    ensures Strip(i.pin) != "" && Candidates(i, facts) == [] <==> Strip(i.pin) != "" && !Present(facts, Strip(i.pin))
  {
    hide Filter, Strip;
    var cs := Candidates(i, facts);
    if cs != [] { FilterMember(Pinned(i), facts, cs[0]); }
    if Present(facts, Strip(i.pin)) {
      var f :| f in facts && f.endpoint == Strip(i.pin);
      FilterMember(Pinned(i), facts, f);
    }
  }

  /** Where every name is known: an endpoint is ranked exactly when it is asked for
      and suits; a rejection is given exactly for an endpoint that is asked for and
      to which its reason applies; and the choice is the first of the ranking. */
  lemma ResolutionMeans(i: Intent, facts: seq<ModelFacts>)
    requires NamesKnown(i, facts)
    ensures var r := Resolved(i, facts);
            && (forall n :: n in r.ranked <==> exists f :: f in facts && f.endpoint == n && Asked(i, f) && Suits(i, f))
            && (forall x :: x in r.rejected <==>
                  exists f :: f in facts && f.endpoint == x.endpoint && Asked(i, f) && Applies(i, f, x.reason))
            && r.endpoint == (if r.ranked == [] then None else Some(r.ranked[0]))
            && r.unmatched == []
  {
    hide Filter, Strip, Verdict, Ranking, Unmatched, Suits, Applies;
    UnmatchedNone(i, facts);
    CandidatesNone(i, facts);
    var r := Resolved(i, facts);
    assert r.ranked == Names(Ranking(i, facts));
    forall n ensures n in r.ranked <==> exists f :: f in facts && f.endpoint == n && Asked(i, f) && Suits(i, f) {
      RankedMeans(i, facts, n);
    }
    forall x ensures x in r.rejected <==>
                       exists f :: f in facts && f.endpoint == x.endpoint && Asked(i, f) && Applies(i, f, x.reason) {
      RejectedMeans(i, facts, x);
    }
  }

  lemma RankedMeans(i: Intent, facts: seq<ModelFacts>, n: string)
    ensures n in Names(Ranking(i, facts)) <==> exists f :: f in facts && f.endpoint == n && Asked(i, f) && Suits(i, f)
  {
    hide Filter, Strip, Verdict, Suits, Sort;
    var ranking := Ranking(i, facts);
    if n in Names(ranking) {
      var k :| 0 <= k < |ranking| && Names(ranking)[k] == n;
      var f := ranking[k];
      InRankingOnly(i, facts, f);
      VerdictMeans(i, f);
    }
    if f :| f in facts && f.endpoint == n && Asked(i, f) && Suits(i, f) {
      VerdictMeans(i, f);
      InRanking(i, facts, f);
      var k :| 0 <= k < |ranking| && ranking[k] == f;
      assert Names(ranking)[k] == n;
    }
  }

  lemma InRankingOnly(i: Intent, facts: seq<ModelFacts>, f: ModelFacts)
    requires f in Ranking(i, facts)
    ensures f in facts && Asked(i, f) && Verdict(i, f) == None
  {
    hide Sort, Filter, Verdict, Strip;
    var ok := Filter(Passing(i), Candidates(i, facts));
    SortSorts(i.prefer, ok);
    assert f in multiset(Sort(i.prefer, ok));
    FilterMember(Passing(i), Candidates(i, facts), f);
    FilterMember(Pinned(i), facts, f);
  }

  lemma RejectedMeans(i: Intent, facts: seq<ModelFacts>, x: Rejection)
    ensures x in Map(Rejecting(i), Filter(Failing(i), Candidates(i, facts))) <==>
              exists f :: f in facts && f.endpoint == x.endpoint && Asked(i, f) && Applies(i, f, x.reason)
  {
    hide Filter, Strip, Verdict, Applies;
    var no := Filter(Failing(i), Candidates(i, facts));
    var out := Map(Rejecting(i), no);
    if x in out {
      var k :| 0 <= k < |no| && out[k] == x;
      FilterMember(Failing(i), Candidates(i, facts), no[k]);
      FilterMember(Pinned(i), facts, no[k]);
      VerdictMeans(i, no[k]);
    }
    if f :| f in facts && f.endpoint == x.endpoint && Asked(i, f) && Applies(i, f, x.reason) {
      VerdictMeans(i, f);
      FilterMember(Failing(i), Candidates(i, facts), f);
      FilterMember(Pinned(i), facts, f);
      var k :| 0 <= k < |no| && no[k] == f;
      assert out[k] == x;
    }
  }

  /** An exclusion that names nothing refuses the request: every such name is
      reported as it was written, and nothing is ranked. Otherwise a pin that names
      nothing does, and is reported as written or as normalized. */
  lemma UnknownNamesRefuse(i: Intent, facts: seq<ModelFacts>)
    requires !NamesKnown(i, facts)
    ensures var r := Resolved(i, facts);
            && r.endpoint == None && r.ranked == [] && r.rejected != []
            && (forall w :: w in r.unmatched <==> exists x :: x in i.excludePairs && x.1 == w && !Present(facts, x.0))
            && (forall x :: x in r.rejected ==> x.reason == UnknownEndpoint)
            && (r.unmatched != [] ==>
                  && |r.rejected| == |r.unmatched|
                  && forall k :: 0 <= k < |r.unmatched| ==> r.rejected[k].endpoint == r.unmatched[k])
            && (r.unmatched == [] ==>
                  r.rejected == [Rejection(if i.pinAsWritten != "" then i.pinAsWritten else Strip(i.pin), UnknownEndpoint)])
  {
    hide Filter, Strip, Unmatched, Present, Candidates, Ranking;
    UnmatchedNone(i, facts);
    CandidatesNone(i, facts);
    forall w ensures w in Unmatched(i, facts) <==> exists x :: x in i.excludePairs && x.1 == w && !Present(facts, x.0) {
      UnmatchedMeans(i, facts, w);
    }
  }
}
