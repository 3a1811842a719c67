/** Who is rerouted over a run: every reroute passed the gates, and when targets
    declare no failover of their own nobody is rerouted twice. */
module FailoverHops {
  import opened Prelude
  import opened Seqs
  import opened Failover
  import opened FailoverCohort
  import opened FailoverRuns

  // ------------------------------------------------------- where everyone is

  function SubmittedIds(evs: seq<Event>): seq<string> {
    if evs == [] then []
    else SubmittedIds(evs[..|evs| - 1]) + (if evs[|evs| - 1].Submit? then [evs[|evs| - 1].r.id] else [])
  }

  /** At every fast fail, the scheduler lists the endpoint's cohort. */
  ghost predicate Listed(c: Catalog, evs: seq<Event>) {
    evs == [] ||
    (var n := |evs| - 1;
     Listed(c, evs[..n]) && (evs[n].FastFail? ==> Lists(Run(c, evs[..n]).queued, evs[n].ep, evs[n].listing)))
  }

  /** A run in which requests are new when submitted and have ids of their own. */
  ghost predicate Legal(c: Catalog, evs: seq<Event>) {
    Proper(evs) && Distinct(SubmittedIds(evs)) && Listed(c, evs)
  }

  lemma LegalPrefix(c: Catalog, evs: seq<Event>)
    requires Legal(c, evs) && evs != []
    ensures var n := |evs| - 1;
            && Legal(c, evs[..n])
            && (evs[n].Submit? ==> evs[n].r.id !in SubmittedIds(evs[..n]))
            && (evs[n].FastFail? ==> Lists(Run(c, evs[..n]).queued, evs[n].ep, evs[n].listing))
  {
    hide Lists, Run;
    var n := |evs| - 1;
    ProperPrefix(evs);
    var a := SubmittedIds(evs[..n]);
    forall i, j | 0 <= i < j < |a| ensures a[i] != a[j] {
      assert SubmittedIds(evs)[i] == a[i] && SubmittedIds(evs)[j] == a[j];
    }
    if evs[n].Submit? {
      forall i | 0 <= i < |a| ensures a[i] != evs[n].r.id {
        assert SubmittedIds(evs)[i] == a[i] && SubmittedIds(evs)[|a|] == evs[n].r.id;
      }
    }
  }

  /** Nobody is queued or in flight twice. */
  ghost predicate Unique(f: Fleet) {
    Distinct(Ids(f.queued) + Ids(f.active))
  }

  lemma AllUnique(f: Fleet, ids: seq<string>)
    requires Everyone(f) == multiset(ids) && Distinct(ids)
    ensures Unique(f)
  {
    forall x ensures multiset(Ids(f.queued) + Ids(f.active))[x] <= 1 {
      DistinctCounts(ids, x);
      assert Everyone(f)[x] == multiset(Ids(f.queued) + Ids(f.active))[x] + multiset(ClosedIds(f.closed))[x];
    }
    CountsDistinct(Ids(f.queued) + Ids(f.active));
  }

  lemma UniqueParts(f: Fleet)
    requires Unique(f)
    ensures Distinct(Ids(f.queued))
    ensures forall r, a :: r in f.queued && a in f.active ==> r.id != a.id
  {
    var all := Ids(f.queued) + Ids(f.active);
    forall i, j | 0 <= i < j < |f.queued| ensures f.queued[i].id != f.queued[j].id {
      assert all[i] != all[j];
    }
    forall r, a | r in f.queued && a in f.active ensures r.id != a.id {
      var i :| 0 <= i < |f.queued| && f.queued[i] == r;
      var j :| 0 <= j < |f.active| && f.active[j] == a;
      assert all[i] == r.id && all[|f.queued| + j] == a.id;
    }
  }

  lemma DropIds(s: seq<Request>, i: nat)
    requires i < |s|
    ensures multiset(Ids(s)) == multiset(Ids(Drop(s, i))) + multiset{s[i].id}
  {
    assert Ids(s) == Ids(s)[..i] + [s[i].id] + Ids(s)[i + 1..];
    assert Ids(Drop(s, i)) == Ids(s)[..i] + Ids(s)[i + 1..];
  }

  lemma CloseIds(s: seq<Closed>, x: Closed)
    ensures multiset(ClosedIds(s + [x])) == multiset(ClosedIds(s)) + multiset{x.id}
  {
    assert ClosedIds(s + [x]) == ClosedIds(s) + [x.id];
  }

  lemma SubmitConserves(f: Fleet, c: Catalog, up: set<string>, now: real, r: Request)
    ensures Everyone(Submitted(f, c, up, now, r)) == Everyone(f) + multiset{r.id}
  {
    hide Refreshed, PlanFor, Ids, ClosedIds;
    RefreshKeeps(f, c, up, now);
    var g := Refreshed(f, c, up, now);
    var p := PlanFor(g.degraded, c, up, r);
    IdsSnoc(f.queued, r);
    CloseIds(f.closed, Closed(r.id, TurnedAway));
    if p.Reroute? {
      IdsSnoc(f.queued, Repointed(r, c, p.target));
    }
  }

  lemma ShuffleConserves(f: Fleet, c: Catalog, e: Event)
    requires e.Dispatch? || e.Complete? || e.Expire?
    ensures Everyone(Step(f, c, e)) == Everyone(f)
  {
    hide Ids, ClosedIds, Drop;
    if e.Complete? {
      if e.i < |f.active| {
        DropIds(f.active, e.i);
        CloseIds(f.closed, Closed(f.active[e.i].id, Finished));
      }
    } else if e.i < |f.queued| {
      DropIds(f.queued, e.i);
      IdsSnoc(f.active, f.queued[e.i]);
      CloseIds(f.closed, Closed(f.queued[e.i].id, Finished));
    }
  }

  lemma StepConserves(f: Fleet, c: Catalog, e: Event)
    requires Distinct(Ids(f.queued)) && (e.FastFail? ==> Lists(f.queued, e.ep, e.listing))
    ensures Everyone(Step(f, c, e)) == Everyone(f) + (if e.Submit? then multiset{e.r.id} else multiset{})
  {
    hide Refreshed, PlanFor, Ids, ClosedIds, Submitted, FailedOver, Drop, Distinct, Lists;
    match e {
      case Tick(up, now) => RefreshKeeps(f, c, up, now);
      case Submit(r, up, now) => SubmitConserves(f, c, up, now, r);
      case FastFail(ep, up, now, listing) => CohortConserved(f, c, up, now, ep, listing);
      case _ => ShuffleConserves(f, c, e);
    }
  }

  /** After any run, the requests queued, in flight or closed are exactly the
      submitted ones, each in exactly one place. */
  lemma {:induction false} EveryoneIsSomewhere(c: Catalog, evs: seq<Event>)
    requires Legal(c, evs)
    ensures Everyone(Run(c, evs)) == multiset(SubmittedIds(evs)) && Unique(Run(c, evs))
  {
    hide Step, Unique, Proper, Lists;
    if evs == [] {
      assert Ids([]) == [] && ClosedIds([]) == [];
    } else {
      var n := |evs| - 1;
      LegalPrefix(c, evs);
      EveryoneIsSomewhere(c, evs[..n]);
      UniqueParts(Run(c, evs[..n]));
      StepConserves(Run(c, evs[..n]), c, evs[n]);
    }
    AllUnique(Run(c, evs), SubmittedIds(evs));
  }

  lemma {:induction false} LegalLists(c: Catalog, evs: seq<Event>)
    requires Legal(c, evs)
    ensures ListsQueued(c, evs)
  {
    hide Run, Lists, Unique, Everyone;
    if evs != [] {
      var n := |evs| - 1;
      LegalPrefix(c, evs);
      LegalLists(c, evs[..n]);
      if evs[n].FastFail? {
        EveryoneIsSomewhere(c, evs[..n]);
        UniqueParts(Run(c, evs[..n]));
        ListedFacts(Run(c, evs[..n]).queued, evs[n].ep, evs[n].listing);
      }
    }
  }

  /** In every run a live request is one that was submitted, in everything but its
      routing. */
  lemma LiveIsSubmitted(c: Catalog, evs: seq<Event>)
    requires Legal(c, evs)
    ensures FromSubmitted(Run(c, evs).queued, evs) && FromSubmitted(Run(c, evs).active, evs)
  {
    LegalLists(c, evs);
    LiveAsAsked(c, evs);
  }

  // ------------------------------------------------------------------- hops

  /** One reroute: the request as it was, where it went, what was healthy. */
  datatype Hop = Hop(r: Request, target: string, up: set<string>)

  function Hopping(degraded: set<string>, c: Catalog, up: set<string>): Request -> Hop {
    (r: Request) => var p := PlanFor(degraded, c, up, r); Hop(r, if p.Reroute? then p.target else r.endpoint, up)
  }

  /** The requests an event reroutes. */
  function Rerouting(f: Fleet, c: Catalog, e: Event): seq<Hop> {
    match e
    case Submit(r, up, now) =>
      var d := Refreshed(f, c, up, now).degraded;
      if r.endpoint !in up && PlanFor(d, c, up, r).Reroute? then [Hopping(d, c, up)(r)] else []
    case FastFail(ep, up, now, listing) =>
      var d := Refreshed(f, c, up, now).degraded;
      Map(Hopping(d, c, up), Filter(Saved(d, c, up), listing))
    case _ => []
  }

  function Hops(c: Catalog, evs: seq<Event>): seq<Hop> {
    if evs == [] then []
    else Hops(c, evs[..|evs| - 1]) + Rerouting(Run(c, evs[..|evs| - 1]), c, evs[|evs| - 1])
  }

  function HopIds(hs: seq<Hop>): seq<string> {
    Map((h: Hop) => h.r.id, hs)
  }

  /** The gates, as the caller sees them. */
  predicate Allowed(c: Catalog, h: Hop) {
    && h.r.endpoint in c.endpoints && h.target == c.endpoints[h.r.endpoint].failoverTo
    && h.target in h.up && h.target in c.endpoints && h.target !in c.onDemand
    && h.r.agent in c.degradeOk && !h.r.declines
    && (h.r.chat && c.endpoints[h.target].context > 0 ==> h.r.tokens <= c.endpoints[h.target].context)
  }

  lemma HopAllowed(d: set<string>, c: Catalog, up: set<string>, r: Request)
    requires PlanFor(d, c, up, r).Reroute?
    ensures Allowed(c, Hopping(d, c, up)(r))
  {}

  lemma StepAllowed(f: Fleet, c: Catalog, e: Event, h: Hop)
    requires h in Rerouting(f, c, e)
    ensures Allowed(c, h)
  {
    hide Refreshed, PlanFor, Allowed, Filter;
    var d := Refreshed(f, c, e.up, e.now).degraded;
    if e.Submit? {
      HopAllowed(d, c, e.up, e.r);
    } else {
      var saved := Filter(Saved(d, c, e.up), e.listing);
      var i :| 0 <= i < |saved| && Map(Hopping(d, c, e.up), saved)[i] == h;
      FilterMember(Saved(d, c, e.up), e.listing, saved[i]);
      HopAllowed(d, c, e.up, saved[i]);
    }
  }

  /** Every reroute of every run was opted in, not declined, fitted the target,
      and went to the declared, healthy target. */
  lemma {:induction false} EveryHopAllowed(c: Catalog, evs: seq<Event>)
    ensures forall h :: h in Hops(c, evs) ==> Allowed(c, h)
  {
    hide Allowed, Rerouting, Run;
    if evs != [] {
      var n := |evs| - 1;
      EveryHopAllowed(c, evs[..n]);
      forall h | h in Rerouting(Run(c, evs[..n]), c, evs[n]) ensures Allowed(c, h) {
        StepAllowed(Run(c, evs[..n]), c, evs[n], h);
      }
    }
  }

  // --------------------------------------------------------- at most one hop

  /** No failover target declares a failover of its own, other than itself. */
  predicate NoChain(c: Catalog) {
    forall s :: s in Pairs(c) && Pairs(c)[s] != s && Pairs(c)[s] in Pairs(c) ==> Pairs(c)[Pairs(c)[s]] == Pairs(c)[s]
  }

  /** A live request that has hopped carries its origin. */
  ghost predicate Marked(s: seq<Request>, hopped: set<string>) {
    forall r :: r in s && r.id in hopped ==> r.degradedFrom.Some?
  }

  function HoppedBy(hs: seq<Hop>): set<string> {
    set h | h in hs :: h.r.id
  }

  ghost predicate Settled(f: Fleet, hops: seq<Hop>, known: seq<string>) {
    && Distinct(HopIds(hops)) && (forall id :: id in HoppedBy(hops) ==> id in known)
    && Marked(f.queued, HoppedBy(hops)) && Marked(f.active, HoppedBy(hops))
  }

  /** Everyone live is known. */
  ghost predicate Known(f: Fleet, known: seq<string>) {
    forall r :: r in f.queued || r in f.active ==> r.id in known
  }

  lemma FirstHop(f: Fleet, c: Catalog, up: set<string>, now: real, r: Request)
    requires NoChain(c) && Sound(f, c) && r in f.queued
    requires PlanFor(Refreshed(f, c, up, now).degraded, c, up, r).Reroute?
    ensures r.degradedFrom == None
  {
    hide Refreshed;
    assert LiveOk(f.degraded, c, r);
    RefreshSound(f, c, up, now);
  }

  lemma HoppedConcat(a: seq<Hop>, b: seq<Hop>)
    requires Distinct(HopIds(a)) && Distinct(HopIds(b)) && HoppedBy(a) !! HoppedBy(b)
    ensures HoppedBy(a + b) == HoppedBy(a) + HoppedBy(b) && Distinct(HopIds(a + b))
  {
    var ids := HopIds(a + b);
    assert ids == HopIds(a) + HopIds(b);
    forall i, j | 0 <= i < j < |ids| ensures ids[i] != ids[j] {
      if i < |a| <= j {
        assert a[i].r.id in HoppedBy(a) && b[j - |a|].r.id in HoppedBy(b);
      }
    }
  }

  lemma SubmitSettles(f: Fleet, c: Catalog, up: set<string>, now: real, r: Request, hops: seq<Hop>, known: seq<string>)
    requires Settled(f, hops, known) && Known(f, known) && r.id !in known && r.degradedFrom == None
    ensures Settled(Submitted(f, c, up, now, r), hops + Rerouting(f, c, Submit(r, up, now)), known + [r.id])
  {
    hide Refreshed, PlanFor, HoppedBy;
    RefreshKeeps(f, c, up, now);
    var more := Rerouting(f, c, Submit(r, up, now));
    assert HoppedBy(more) == (if more == [] then {} else {r.id}) by { OneHop(more, r.id); }
    HoppedConcat(hops, more);
  }

  lemma OneHop(more: seq<Hop>, id: string)
    requires more == [] || (|more| == 1 && more[0].r.id == id)
    ensures HoppedBy(more) == if more == [] then {} else {id}
  {}

  lemma {:induction false} HopIdsDistinct(q: seq<Request>, hop: Request -> Hop)
    requires Distinct(Ids(q)) && forall r :: hop(r).r == r
    ensures Distinct(HopIds(Map(hop, q))) && HoppedBy(Map(hop, q)) == IdSet(q)
  {
    assert HopIds(Map(hop, q)) == Ids(q);
    forall id ensures id in HoppedBy(Map(hop, q)) <==> id in IdSet(q) {
      if id in IdSet(q) {
        var i :| 0 <= i < |q| && q[i].id == id;
        assert Map(hop, q)[i].r.id == id;
      }
    }
  }

  lemma FailoverSettles(f: Fleet, c: Catalog, e: Event, hops: seq<Hop>, known: seq<string>)
    requires e.FastFail? && Lists(f.queued, e.ep, e.listing)
    requires NoChain(c) && Sound(f, c) && Unique(f) && Settled(f, hops, known) && Known(f, known)
    ensures Settled(FailedOver(f, c, e.up, e.now, e.listing), hops + Rerouting(f, c, e), known)
  {
    hide Refreshed, PlanFor, HoppedBy, FailedOver, Filter, Sound, NoChain, Lists;
    var ep, up, now, listing := e.ep, e.up, e.now, e.listing;
    UniqueParts(f);
    CohortMoves(f, c, up, now, ep, listing);
    ListedFacts(f.queued, ep, listing);
    var d := Refreshed(f, c, up, now).degraded;
    var saved := Filter(Saved(d, c, up), listing);
    FilterDistinct(Saved(d, c, up), listing);
    HopIdsDistinct(saved, Hopping(d, c, up));
    forall r | r in saved ensures r in listing && r in f.queued && r.degradedFrom == None && Saved(d, c, up)(r) {
      FilterMember(Saved(d, c, up), listing, r);
      FirstHop(f, c, up, now, r);
    }
    var more := Rerouting(f, c, e);
    assert HoppedBy(more) == IdSet(saved);
    HoppedConcat(hops, more);
    forall r | r in Filter(Stays(ep), f.queued) && r.id in HoppedBy(hops + more) ensures r.degradedFrom.Some? {
      FilterMember(Stays(ep), f.queued, r);
      if r.id in IdSet(saved) {
        var x :| x in saved && x.id == r.id;
        SameId(f.queued, x, r);
      }
    }
    forall r | r in Map(Rescued(d, c, up), saved) ensures r.degradedFrom.Some? {
      var i :| 0 <= i < |saved| && Map(Rescued(d, c, up), saved)[i] == r;
    }
  }

  lemma StepSettles(f: Fleet, c: Catalog, e: Event, hops: seq<Hop>, known: seq<string>)
    requires NoChain(c) && Sound(f, c) && Unique(f) && Settled(f, hops, known) && Known(f, known)
    requires e.Submit? ==> e.r.id !in known && e.r.degradedFrom == None
    requires e.FastFail? ==> Lists(f.queued, e.ep, e.listing)
    ensures Settled(Step(f, c, e), hops + Rerouting(f, c, e), known + if e.Submit? then [e.r.id] else [])
  {
    hide Refreshed, Sound, NoChain, Unique, HoppedBy, Lists;
    match e {
      case Submit(r, up, now) => SubmitSettles(f, c, up, now, r, hops, known);
      case FastFail(_, _, _, _) =>
        FailoverSettles(f, c, e, hops, known);
        assert known + [] == known;
      case Tick(up, now) =>
        RefreshKeeps(f, c, up, now);
        assert hops + [] == hops && known + [] == known;
      case _ =>
        assert hops + [] == hops && known + [] == known;
    }
  }

  lemma KnownEveryone(f: Fleet, known: seq<string>)
    requires Everyone(f) == multiset(known)
    ensures Known(f, known)
  {
    forall r | r in f.queued || r in f.active ensures r.id in known {
      assert r.id in Ids(f.queued) || r.id in Ids(f.active) by {
        if r in f.queued {
          var i :| 0 <= i < |f.queued| && f.queued[i] == r;
          assert Ids(f.queued)[i] == r.id;
        } else {
          var i :| 0 <= i < |f.active| && f.active[i] == r;
          assert Ids(f.active)[i] == r.id;
        }
      }
      assert r.id in multiset(known);
    }
  }

  lemma {:induction false} RunSettles(c: Catalog, evs: seq<Event>)
    requires NoChain(c) && Legal(c, evs)
    ensures Settled(Run(c, evs), Hops(c, evs), SubmittedIds(evs))
  {
    hide NoChain, Step, Settled, Sound, Unique, Rerouting, Known, Everyone, Lists;
    if evs == [] {
      StartSettled();
    } else {
      var n := |evs| - 1;
      LegalPrefix(c, evs);
      RunSettles(c, evs[..n]);
      EveryoneIsSomewhere(c, evs[..n]);
      DegradedOnlyInMode(c, evs[..n]);
      var f := Run(c, evs[..n]);
      KnownEveryone(f, SubmittedIds(evs[..n]));
      StepSettles(f, c, evs[n], Hops(c, evs[..n]), SubmittedIds(evs[..n]));
    }
  }

  lemma StartSettled()
    ensures Settled(Start, [], [])
  {
    assert HopIds([]) == [];
  }

  /** When targets declare no failover of their own, no request of any run is
      rerouted twice. */
  lemma AtMostOneHop(c: Catalog, evs: seq<Event>)
    requires NoChain(c) && Legal(c, evs)
    ensures Distinct(HopIds(Hops(c, evs)))
  {
    RunSettles(c, evs);
  }

  lemma FirstOfTwo(c: Catalog, a: string, b: string, r: Request)
    requires a in Pairs(c) && Pairs(c)[a] == b && a != b
    requires r.endpoint == a && !r.chat && !r.declines && r.agent in c.degradeOk
    ensures var e := Submit(r, {b}, 0.0);
            Step(Start, c, e).queued == [Repointed(r, c, b)] && Rerouting(Start, c, e) == [Hop(r, b, {b})]
  {
    hide Refreshed;
    RefreshedAt(Start, c, {b}, 0.0, a);
    RefreshKeeps(Start, c, {b}, 0.0);
    assert PlanFor(Refreshed(Start, c, {b}, 0.0).degraded, c, {b}, r) == Reroute(b);
  }

  lemma SecondOfTwo(f: Fleet, c: Catalog, b: string, moved: Request)
    requires b in Pairs(c) && Pairs(c)[b] != b && f.queued == [moved]
    requires moved.endpoint == b && moved.band == Interactive && !moved.chat && !moved.declines
    requires moved.agent in c.degradeOk
    ensures var up := {Pairs(c)[b]};
            && Rerouting(f, c, FastFail(b, up, 0.0, [moved])) == [Hop(moved, Pairs(c)[b], up)]
            && Lists(f.queued, b, [moved])
  {
    hide Refreshed;
    var up := {Pairs(c)[b]};
    RefreshedAt(f, c, up, 0.0, b);
    var d := Refreshed(f, c, up, 0.0).degraded;
    assert PlanFor(d, c, up, moved) == Reroute(Pairs(c)[b]);
    hide Filter;
    FilterAll(Cohort(b), [moved]);
    FilterAll(Saved(d, c, up), [moved]);
  }

  lemma TwoEvents(c: Catalog, e1: Event, e2: Event)
    requires e1.Submit? && e2.FastFail? && Lists(Step(Start, c, e1).queued, e2.ep, e2.listing)
    ensures Listed(c, [e1, e2])
    ensures var f := Step(Start, c, e1);
            Hops(c, [e1, e2]) == Rerouting(Start, c, e1) + Rerouting(f, c, e2)
    ensures SubmittedIds([e1, e2]) == [e1.r.id]
  {
    hide Step, Rerouting, Lists;
    assert [e1, e2][..1] == [e1] && [e1][..0] == [];
    assert Listed(c, [e1]);
    assert Run(c, [e1]) == Step(Run(c, []), c, e1);
    assert Hops(c, [e1]) == Rerouting(Start, c, e1);
    assert SubmittedIds([e1]) == [e1.r.id];
  }

  /** Wherever one pair leads into another and somebody is opted in, two events
      reroute the same request twice. */
  lemma ChainHopsTwice(c: Catalog, a: string, agent: string) returns (evs: seq<Event>)
    requires a in Pairs(c) && Pairs(c)[a] != a && agent in c.degradeOk
    requires Pairs(c)[a] in Pairs(c) && Pairs(c)[Pairs(c)[a]] != Pairs(c)[a]
    ensures Legal(c, evs) && HopIds(Hops(c, evs)) == ["1", "1"]
  {
    hide Refreshed, Step, Rerouting, Lists;
    var b := Pairs(c)[a];
    var r := Request("1", agent, Interactive, a, None, false, 0, false, 0);
    var e1, e2 := Submit(r, {b}, 0.0), FastFail(b, {Pairs(c)[b]}, 0.0, [Repointed(r, c, b)]);
    evs := [e1, e2];
    FirstOfTwo(c, a, b, r);
    SecondOfTwo(Step(Start, c, e1), c, b, Repointed(r, c, b));
    TwoEvents(c, e1, e2);
  }

  /** Exactly when requests are rerouted at most once: when no target declares a
      failover of its own (or nobody is opted in at all). */
  lemma OneHopExactly(c: Catalog)
    ensures NoChain(c) || c.degradeOk == {} <==> forall evs :: Legal(c, evs) ==> Distinct(HopIds(Hops(c, evs)))
  {
    hide Legal, Hops;
    if NoChain(c) {
      forall evs | Legal(c, evs) ensures Distinct(HopIds(Hops(c, evs))) { AtMostOneHop(c, evs); }
    } else if c.degradeOk == {} {
      forall evs ensures Distinct(HopIds(Hops(c, evs))) {
        if Hops(c, evs) != [] {
          assert Hops(c, evs)[0] in Hops(c, evs);
          EveryHopAllowed(c, evs);
          assert false;
        }
      }
    } else {
      var a :| a in Pairs(c) && Pairs(c)[a] != a && Pairs(c)[a] in Pairs(c) && Pairs(c)[Pairs(c)[a]] != Pairs(c)[a];
      var agent :| agent in c.degradeOk;
      var evs := ChainHopsTwice(c, a, agent);
      assert HopIds(Hops(c, evs))[0] == HopIds(Hops(c, evs))[1];
    }
  }

  // ---------------------------------------------------------------- counters

  function Tally<K>(m: map<K, nat>, k: K): nat {
    if k in m then m[k] else 0
  }

  function HopFrom(src: string): Hop -> bool {
    (h: Hop) => h.r.endpoint == src
  }

  function SavedFrom(d: set<string>, c: Catalog, up: set<string>, src: string): Request -> bool {
    (r: Request) => PlanFor(d, c, up, r).Reroute? && r.endpoint == src
  }

  lemma BumpTally<K>(m: map<K, nat>, k: K, j: K)
    ensures Tally(Bump(m, k), j) == Tally(m, j) + (if j == k then 1 else 0)
  {}

  lemma {:induction false} MoveAllCounts(f: Fleet, c: Catalog, up: set<string>, cohort: seq<Request>, src: string)
    ensures var g := MoveAll(f, c, up, cohort);
            && g.degraded == f.degraded
            && Tally(g.rerouted, src) == Tally(f.rerouted, src) + |Filter(SavedFrom(f.degraded, c, up, src), cohort)|
  {
    hide PlanFor, Cancelled, Bump, Tally, Repointed, Refused;
    if cohort != [] {
      var n := |cohort| - 1;
      MoveAllCounts(f, c, up, cohort[..n], src);
      BumpTally(MoveAll(f, c, up, cohort[..n]).rerouted, cohort[n].endpoint, src);
    }
  }

  lemma {:induction false} HopsMapped(d: set<string>, c: Catalog, up: set<string>, q: seq<Request>, src: string)
    ensures |Filter(HopFrom(src), Map(Hopping(d, c, up), Filter(Saved(d, c, up), q)))|
         == |Filter(SavedFrom(d, c, up, src), q)|
  {
    hide PlanFor, Filter;
    if q == [] {
      FilterNone(Saved(d, c, up), q);
      FilterNone(SavedFrom(d, c, up, src), q);
      assert Map(Hopping(d, c, up), []) == [];
      FilterNone(HopFrom(src), []);
    } else {
      var n := |q| - 1;
      HopsMapped(d, c, up, q[..n], src);
      assert q == q[..n] + [q[n]];
      FilterSnoc(Saved(d, c, up), q[..n], q[n]);
      FilterSnoc(SavedFrom(d, c, up, src), q[..n], q[n]);
      var saved := Filter(Saved(d, c, up), q[..n]);
      MapSnoc(Hopping(d, c, up), saved, q[n]);
      FilterSnoc(HopFrom(src), Map(Hopping(d, c, up), saved), Hopping(d, c, up)(q[n]));
    }
  }

  lemma StepCounts(f: Fleet, c: Catalog, e: Event, src: string)
    ensures Tally(Step(f, c, e).rerouted, src)
         == Tally(f.rerouted, src) + |Filter(HopFrom(src), Rerouting(f, c, e))|
  {
    hide Refreshed, PlanFor, MoveAll, Bump, Tally;
    match e {
      case Submit(r, up, now) =>
        RefreshKeeps(f, c, up, now);
        BumpTally(f.rerouted, r.endpoint, src);
        var d := Refreshed(f, c, up, now).degraded;
        FilterNone(HopFrom(src), []);
        FilterSnoc(HopFrom(src), [], Hopping(d, c, up)(r));
        assert [] + [Hopping(d, c, up)(r)] == [Hopping(d, c, up)(r)];
      case FastFail(ep, up, now, listing) =>
        RefreshKeeps(f, c, up, now);
        var g := Refreshed(f, c, up, now);
        MoveAllCounts(g, c, up, listing, src);
        HopsMapped(g.degraded, c, up, listing, src);
      case Tick(up, now) =>
        RefreshKeeps(f, c, up, now);
        FilterNone(HopFrom(src), []);
      case _ =>
        FilterNone(HopFrom(src), []);
    }
  }

  /** The published reroute counter of an endpoint is the number of reroutes that
      left it. */
  lemma {:induction false} ReroutesAreCounted(c: Catalog, evs: seq<Event>, src: string)
    ensures Tally(Run(c, evs).rerouted, src) == |Filter(HopFrom(src), Hops(c, evs))|
  {
    hide Step, Rerouting, Tally;
    if evs == [] {
      StartTally(src);
    } else {
      var n := |evs| - 1;
      ReroutesAreCounted(c, evs[..n], src);
      StepCounts(Run(c, evs[..n]), c, evs[n], src);
      FilterConcat(HopFrom(src), Hops(c, evs[..n]), Rerouting(Run(c, evs[..n]), c, evs[n]));
    }
  }

  lemma StartTally(src: string)
    ensures Tally(Start.rerouted, src) == 0
  {}
}
