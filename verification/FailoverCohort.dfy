/** Moving the queued cohort of an endpoint that has just gone unhealthy: where
    every request ends up, in which order, and that none is lost or duplicated. */
module FailoverCohort {
  import opened Prelude
  import opened Seqs
  import opened Failover

  function Ids(q: seq<Request>): seq<string> {
    Map((r: Request) => r.id, q)
  }

  function Stays(ep: string): Request -> bool {
    (r: Request) => !(r.endpoint == ep && r.band != Background)
  }

  function Saved(degraded: set<string>, c: Catalog, up: set<string>): Request -> bool {
    (r: Request) => PlanFor(degraded, c, up, r).Reroute?
  }

  function Doomed(degraded: set<string>, c: Catalog, up: set<string>): Request -> bool {
    (r: Request) => !PlanFor(degraded, c, up, r).Reroute?
  }

  function Rescued(degraded: set<string>, c: Catalog, up: set<string>): Request -> Request {
    (r: Request) => var p := PlanFor(degraded, c, up, r); if p.Reroute? then Repointed(r, c, p.target) else r
  }

  function Failing(): Request -> Closed {
    (r: Request) => Closed(r.id, FailedFast)
  }

  function OtherThan(gone: set<string>): Request -> bool {
    (r: Request) => r.id !in gone
  }

  // ---------------------------------------------------------------- cancelling

  lemma {:induction false} CancelLeft(a: seq<Request>, b: seq<Request>, id: string)
    requires id in Ids(a)
    ensures Cancelled(a + b, id) == Cancelled(a, id) + b
  {
    assert (a + b)[1..] == a[1..] + b;
    if a[0].id != id {
      assert a == [a[0]] + a[1..];
      assert Ids(a)[1..] == Ids(a[1..]);
      CancelLeft(a[1..], b, id);
    }
  }

  lemma AllOthers(q: seq<Request>, id: string)
    requires q != [] && Distinct(Ids(q)) && q[0].id == id
    ensures forall r :: r in q[1..] ==> OtherThan({id})(r)
  {
    forall r | r in q[1..] ensures r.id != id {
      var i :| 0 <= i < |q[1..]| && q[1..][i] == r;
      assert Ids(q)[i + 1] == r.id && Ids(q)[0] == id;
    }
  }

  /** With distinct ids, cancelling takes out exactly the one request. */
  lemma {:induction false} CancelIsFilter(q: seq<Request>, id: string)
    requires Distinct(Ids(q))
    ensures Cancelled(q, id) == Filter(OtherThan({id}), q)
  {
    hide Filter, Cancelled, Ids, Distinct;
    if q == [] {
      FilterNone(OtherThan({id}), q);
      NobodyToCancel(id);
    } else {
      var x, r := q[0], q[1..];
      assert q == [x] + r;
      FilterCons(OtherThan({id}), x, r);
      CancelCons(x, r, id);
      if x.id == id {
        AllOthers(q, id);
        FilterAll(OtherThan({id}), r);
      } else {
        TailDistinct(q);
        CancelIsFilter(r, id);
      }
    }
  }

  lemma NobodyToCancel(id: string)
    ensures Cancelled([], id) == []
  {}

  lemma CancelCons(x: Request, r: seq<Request>, id: string)
    ensures Cancelled([x] + r, id) == if x.id == id then r else [x] + Cancelled(r, id)
  {
    assert ([x] + r)[1..] == r;
  }

  lemma TailDistinct(q: seq<Request>)
    requires q != [] && Distinct(Ids(q))
    ensures Distinct(Ids(q[1..]))
  {
    assert Ids(q)[1..] == Ids(q[1..]);
  }

  lemma {:induction false} FilterDistinct(p: Request -> bool, q: seq<Request>)
    requires Distinct(Ids(q))
    ensures Distinct(Ids(Filter(p, q)))
  {
    if q != [] {
      var n := |q| - 1;
      assert Ids(q)[..n] == Ids(q[..n]);
      FilterDistinct(p, q[..n]);
      if p(q[n]) {
        var a := Filter(p, q[..n]);
        forall i | 0 <= i < |a| ensures a[i].id != q[n].id {
          FilterMember(p, q[..n], a[i]);
          var j :| 0 <= j < n && q[j] == a[i];
          assert Ids(q)[j] == a[i].id && Ids(q)[n] == q[n].id;
        }
        assert Ids(a + [q[n]]) == Ids(a) + [q[n].id];
      }
    }
  }

  /** Cancelling a request that is still queued after others have gone. */
  lemma CancelNext(q: seq<Request>, gone: set<string>, tail: seq<Request>, r: Request)
    requires Distinct(Ids(q)) && r in q && r.id !in gone
    ensures Cancelled(Filter(OtherThan(gone), q) + tail, r.id) == Filter(OtherThan(gone + {r.id}), q) + tail
  {
    var a := Filter(OtherThan(gone), q);
    FilterMember(OtherThan(gone), q, r);
    var i :| 0 <= i < |a| && a[i] == r;
    assert Ids(a)[i] == r.id;
    CancelLeft(a, tail, r.id);
    FilterDistinct(OtherThan(gone), q);
    CancelIsFilter(a, r.id);
    FilterTwice(OtherThan({r.id}), OtherThan(gone), OtherThan(gone + {r.id}), q);
  }

  // -------------------------------------------------------------- closed form

  function IdSet(q: seq<Request>): set<string> {
    set r | r in q :: r.id
  }

  /** The fleet after a part of the cohort has been moved. */
  ghost predicate MovedSoFar(f: Fleet, g: Fleet, c: Catalog, up: set<string>, part: seq<Request>) {
    && g.degraded == f.degraded && g.since == f.since && g.active == f.active
    && g.queued == Filter(OtherThan(IdSet(part)), f.queued)
                   + Map(Rescued(f.degraded, c, up), Filter(Saved(f.degraded, c, up), part))
    && g.closed == f.closed + Map(Failing(), Filter(Doomed(f.degraded, c, up), part))
  }

  lemma {:induction false} MovesPrefix(f: Fleet, c: Catalog, up: set<string>, cohort: seq<Request>)
    requires Distinct(Ids(f.queued)) && Distinct(Ids(cohort)) && forall r :: r in cohort ==> r in f.queued
    ensures MovedSoFar(f, MoveAll(f, c, up, cohort), c, up, cohort)
  {
    hide MoveOne, MovedSoFar, Ids, Distinct;
    if cohort == [] {
      NoneMoved(f, c, up);
    } else {
      var n := |cohort| - 1;
      var part, r := cohort[..n], cohort[n];
      assert cohort == part + [r];
      LastIsNew(part, r);
      MovesPrefix(f, c, up, part);
      MoveNext(f, MoveAll(f, c, up, part), c, up, part, r);
    }
  }

  lemma NoneMoved(f: Fleet, c: Catalog, up: set<string>)
    ensures MovedSoFar(f, f, c, up, [])
  {
    assert IdSet([]) == {};
    FilterAll(OtherThan({}), f.queued);
  }

  lemma LastIsNew(part: seq<Request>, r: Request)
    requires Distinct(Ids(part + [r]))
    ensures Distinct(Ids(part)) && r.id !in IdSet(part)
  {
    var ids := Ids(part + [r]);
    assert ids[..|part|] == Ids(part);
    forall x | x in part ensures x.id != r.id {
      var i :| 0 <= i < |part| && part[i] == x;
      assert ids[i] == x.id && ids[|part|] == r.id;
    }
  }

  lemma MoveNext(f: Fleet, g: Fleet, c: Catalog, up: set<string>, part: seq<Request>, r: Request)
    requires MovedSoFar(f, g, c, up, part)
    requires Distinct(Ids(f.queued)) && r in f.queued && r.id !in IdSet(part)
    ensures MovedSoFar(f, MoveOne(g, c, up, r), c, up, part + [r])
  {
    hide Cancelled, PlanFor, Repointed, Filter, Map;
    var d := f.degraded;
    var saved := Filter(Saved(d, c, up), part);
    var doomed := Filter(Doomed(d, c, up), part);
    CancelNext(f.queued, IdSet(part), Map(Rescued(d, c, up), saved), r);
    assert IdSet(part + [r]) == IdSet(part) + {r.id};
    FilterSnoc(Saved(d, c, up), part, r);
    FilterSnoc(Doomed(d, c, up), part, r);
    MapSnoc(Rescued(d, c, up), saved, r);
    MapSnoc(Failing(), doomed, r);
  }

  lemma ListedFacts(q: seq<Request>, ep: string, listing: seq<Request>)
    requires Distinct(Ids(q)) && Lists(q, ep, listing)
    ensures Distinct(Ids(listing)) && multiset(Ids(listing)) == multiset(Ids(Filter(Cohort(ep), q)))
    ensures forall r :: r in listing <==> r in q && Cohort(ep)(r)
  {
    hide Filter;
    var cohort := Filter(Cohort(ep), q);
    MapPermuted((r: Request) => r.id, listing, cohort);
    FilterDistinct(Cohort(ep), q);
    DistinctPermuted(Ids(cohort), Ids(listing));
    forall r ensures r in listing <==> r in q && Cohort(ep)(r) {
      FilterMember(Cohort(ep), q, r);
      assert r in listing <==> r in multiset(listing);
    }
  }

  /** Every interactive or foreground request queued on the endpoint is either
      appended, re-pointed, to the queue or closed with an error; both in the order
      in which the scheduler lists them. Everything else stays queued where it
      was. */
  lemma CohortMoves(f: Fleet, c: Catalog, up: set<string>, now: real, ep: string, listing: seq<Request>)
    requires Distinct(Ids(f.queued)) && Lists(f.queued, ep, listing)
    ensures var g := Refreshed(f, c, up, now);
            var h := FailedOver(f, c, up, now, listing);
            && h.degraded == g.degraded && h.since == g.since && h.active == f.active
            && h.queued == Filter(Stays(ep), f.queued)
                           + Map(Rescued(g.degraded, c, up), Filter(Saved(g.degraded, c, up), listing))
            && h.closed == f.closed + Map(Failing(), Filter(Doomed(g.degraded, c, up), listing))
  {
    hide Lists, Ids, Distinct;
    var g := Refreshed(f, c, up, now);
    ListedFacts(f.queued, ep, listing);
    MovesPrefix(g, c, up, listing);
    forall r | r in f.queued ensures OtherThan(IdSet(listing))(r) == Stays(ep)(r) {
      if x :| x in listing && x.id == r.id {
        assert x == r by { SameId(f.queued, x, r); }
      }
    }
    FilterAgree(OtherThan(IdSet(listing)), Stays(ep), f.queued);
  }

  lemma SameId(q: seq<Request>, x: Request, r: Request)
    requires Distinct(Ids(q)) && x in q && r in q && x.id == r.id
    ensures x == r
  {
    var i :| 0 <= i < |q| && q[i] == x;
    var j :| 0 <= j < |q| && q[j] == r;
    assert Ids(q)[i] == Ids(q)[j];
  }

  // ------------------------------------------------------------- conservation

  function ClosedIds(s: seq<Closed>): seq<string> {
    Map((x: Closed) => x.id, s)
  }

  /** Every request the fleet knows about, wherever it is. */
  ghost function Everyone(f: Fleet): multiset<string> {
    multiset(Ids(f.queued)) + multiset(Ids(f.active)) + multiset(ClosedIds(f.closed))
  }

  lemma IdsConcat(a: seq<Request>, b: seq<Request>)
    ensures Ids(a + b) == Ids(a) + Ids(b)
  {}

  lemma IdsSnoc(a: seq<Request>, r: Request)
    ensures multiset(Ids(a + [r])) == multiset(Ids(a)) + multiset{r.id}
  {
    assert Ids(a + [r]) == Ids(a) + [r.id];
  }

  lemma SplitNone(p: Request -> bool, q: Request -> bool)
    ensures Ids([]) == [] && Filter(p, []) == [] && Filter(q, []) == []
  {}

  /** A filter and its complement split the ids. */
  lemma {:induction false} SplitIds(p: Request -> bool, q: Request -> bool, s: seq<Request>)
    requires forall r :: r in s ==> p(r) == !q(r)
    ensures multiset(Ids(s)) == multiset(Ids(Filter(p, s))) + multiset(Ids(Filter(q, s)))
  {
    hide Ids, Filter;
    if s == [] {
      SplitNone(p, q);
    } else {
      var n := |s| - 1;
      assert s == s[..n] + [s[n]];
      SplitIds(p, q, s[..n]);
      IdsSnoc(s[..n], s[n]);
      IdsSnoc(Filter(p, s[..n]), s[n]);
      IdsSnoc(Filter(q, s[..n]), s[n]);
      FilterSnoc(p, s[..n], s[n]);
      FilterSnoc(q, s[..n], s[n]);
    }
  }

  /** No request is lost or duplicated: the ids in the queues, in flight and
      closed are the same before and after, each as often. */
  lemma CohortConserved(f: Fleet, c: Catalog, up: set<string>, now: real, ep: string, listing: seq<Request>)
    requires Distinct(Ids(f.queued)) && Lists(f.queued, ep, listing)
    ensures Everyone(FailedOver(f, c, up, now, listing)) == Everyone(f)
  {
    hide FailedOver, Refreshed, PlanFor, Ids, ClosedIds, Filter, Map, Lists;
    CohortMoves(f, c, up, now, ep, listing);
    ListedFacts(f.queued, ep, listing);
    var d := Refreshed(f, c, up, now).degraded;
    SplitIds(Stays(ep), Cohort(ep), f.queued);
    SplitIds(Saved(d, c, up), Doomed(d, c, up), listing);
    var saved := Filter(Saved(d, c, up), listing);
    IdsConcat(Filter(Stays(ep), f.queued), Map(Rescued(d, c, up), saved));
    RescueKeepsIds(d, c, up, saved);
    var doomed := Filter(Doomed(d, c, up), listing);
    FailingIds(f.closed, doomed);
  }

  lemma FailingIds(closed: seq<Closed>, s: seq<Request>)
    ensures ClosedIds(closed + Map(Failing(), s)) == ClosedIds(closed) + Ids(s)
  {}

  lemma RescueKeepsIds(d: set<string>, c: Catalog, up: set<string>, s: seq<Request>)
    ensures Ids(Map(Rescued(d, c, up), s)) == Ids(s)
  {}

  /** A request of the cohort that may be served elsewhere. */
  lemma FateOfSaved(f: Fleet, c: Catalog, up: set<string>, ep: string, listing: seq<Request>, d: set<string>, r: Request)
    requires Distinct(Ids(f.queued)) && Lists(f.queued, ep, listing) && r in f.queued && ep !in up
    requires Cohort(ep)(r) && Saved(d, c, up)(r)
    ensures var q := Filter(Stays(ep), f.queued) + Map(Rescued(d, c, up), Filter(Saved(d, c, up), listing));
            Rescued(d, c, up)(r) in q && r !in q
  {
    hide PlanFor, Filter, Lists;
    ListedFacts(f.queued, ep, listing);
    var saved := Filter(Saved(d, c, up), listing);
    FilterMember(Stays(ep), f.queued, r);
    FilterMember(Saved(d, c, up), listing, r);
    var i :| 0 <= i < |saved| && saved[i] == r;
    assert Map(Rescued(d, c, up), saved)[i] == Rescued(d, c, up)(r);
    if r in Map(Rescued(d, c, up), saved) {
      var k :| 0 <= k < |saved| && Map(Rescued(d, c, up), saved)[k] == r;
      FilterMember(Saved(d, c, up), listing, saved[k]);
      RescuedIsUp(d, c, up, saved[k]);
      assert false;
    }
  }

  lemma RescuedIsUp(d: set<string>, c: Catalog, up: set<string>, r: Request)
    requires Saved(d, c, up)(r)
    ensures Rescued(d, c, up)(r).endpoint in up
  {}

  /** Any other request of the cohort. */
  lemma FateOfDoomed(f: Fleet, c: Catalog, up: set<string>, ep: string, listing: seq<Request>, d: set<string>, r: Request)
    requires Distinct(Ids(f.queued)) && Lists(f.queued, ep, listing)
    requires r in f.queued && Cohort(ep)(r) && Doomed(d, c, up)(r)
    ensures var q := Filter(Stays(ep), f.queued) + Map(Rescued(d, c, up), Filter(Saved(d, c, up), listing));
            r.id !in Ids(q)
    ensures Closed(r.id, FailedFast) in Map(Failing(), Filter(Doomed(d, c, up), listing))
  {
    hide PlanFor, Filter, Lists;
    ListedFacts(f.queued, ep, listing);
    var saved, doomed := Filter(Saved(d, c, up), listing), Filter(Doomed(d, c, up), listing);
    FilterMember(Doomed(d, c, up), listing, r);
    var i :| 0 <= i < |doomed| && doomed[i] == r;
    assert Map(Failing(), doomed)[i] == Closed(r.id, FailedFast);
    var stay: seq<Request>, moved: seq<Request> := Filter(Stays(ep), f.queued), Map(Rescued(d, c, up), saved);
    forall x | x in stay ensures x.id != r.id {
      FilterMember(Stays(ep), f.queued, x);
      if x.id == r.id { SameId(f.queued, x, r); }
    }
    forall x | x in saved ensures x.id != r.id {
      FilterMember(Saved(d, c, up), listing, x);
      if x.id == r.id { SameId(f.queued, x, r); }
    }
    RescueKeepsIds(d, c, up, saved);
    IdsConcat(stay, moved);
  }

  /** The fate of one request. A queued request of the cohort that may be served
      elsewhere is queued on its target, a healthy endpoint other than this one;
      any other request of the cohort is closed, and gone from the queue; a
      request outside the cohort is where it was. */
  lemma FateOfOne(f: Fleet, c: Catalog, up: set<string>, now: real, ep: string, listing: seq<Request>, r: Request)
    requires Distinct(Ids(f.queued)) && Lists(f.queued, ep, listing) && r in f.queued && ep !in up
    ensures var d := Refreshed(f, c, up, now).degraded;
            var h := FailedOver(f, c, up, now, listing);
            var p := PlanFor(d, c, up, r);
            if r.endpoint != ep || r.band == Background then r in h.queued
            else if p.Reroute? then
              && p.target in up && p.target != ep
              && Repointed(r, c, p.target) in h.queued && r !in h.queued
            else Closed(r.id, FailedFast) in h.closed && r.id !in Ids(h.queued)
  {
    hide Refreshed, FailedOver, Filter, Map, Lists;
    CohortMoves(f, c, up, now, ep, listing);
    var d := Refreshed(f, c, up, now).degraded;
    if !Cohort(ep)(r) {
      FilterMember(Stays(ep), f.queued, r);
    } else if Saved(d, c, up)(r) {
      FateOfSaved(f, c, up, ep, listing, d, r);
    } else {
      FateOfDoomed(f, c, up, ep, listing, d, r);
    }
  }

  // ------------------------------------------------------- first in, first out

  /** A request of this agent and band that moves. */
  function MovesIn(d: set<string>, c: Catalog, up: set<string>, ep: string, band: Band, agent: string): Request -> bool {
    (r: Request) => PlanFor(d, c, up, r).Reroute? && r.endpoint == ep && r.band == band && r.agent == agent
  }

  lemma MovedLane(d: set<string>, c: Catalog, up: set<string>, ep: string, tgt: string, band: Band, agent: string, r: Request)
    requires r.endpoint == ep && ep in Pairs(c) && Pairs(c)[ep] == tgt && Saved(d, c, up)(r)
    ensures Lane(tgt, band, agent)(Rescued(d, c, up)(r)) == MovesIn(d, c, up, ep, band, agent)(r)
  {}

  /** An agent's requests of one band keep their order: on the target's queue they
      stand behind those that were there, first in first. */
  lemma LanesKeepOrder(f: Fleet, c: Catalog, up: set<string>, now: real, ep: string, listing: seq<Request>,
                       band: Band, agent: string)
    requires Distinct(Ids(f.queued)) && Lists(f.queued, ep, listing)
    requires ep in Pairs(c) && Pairs(c)[ep] != ep && band != Background
    ensures var d, tgt := Refreshed(f, c, up, now).degraded, Pairs(c)[ep];
            Filter(Lane(tgt, band, agent), FailedOver(f, c, up, now, listing).queued)
            == Filter(Lane(tgt, band, agent), f.queued)
               + Map(Rescued(d, c, up), Filter(MovesIn(d, c, up, ep, band, agent), f.queued))
  {
    hide Refreshed, FailedOver, Filter, Map, PlanFor, Lists, Pairs;
    CohortMoves(f, c, up, now, ep, listing);
    ListedFacts(f.queued, ep, listing);
    var d, tgt := Refreshed(f, c, up, now).degraded, Pairs(c)[ep];
    var lane, here, moves := Lane(tgt, band, agent), Lane(ep, band, agent), MovesIn(d, c, up, ep, band, agent);
    var saved := Filter(Saved(d, c, up), listing);
    FilterConcat(lane, Filter(Stays(ep), f.queued), Map(Rescued(d, c, up), saved));
    FilterTwice(lane, Stays(ep), lane, f.queued);
    forall r | r in saved ensures lane(Rescued(d, c, up)(r)) == moves(r) {
      FilterMember(Saved(d, c, up), listing, r);
      MovedLane(d, c, up, ep, tgt, band, agent, r);
    }
    FilterMap(lane, Rescued(d, c, up), moves, saved);
    FilterTwice(moves, Saved(d, c, up), moves, listing);
    FilterTwice(moves, here, moves, listing);
    FilterTwice(moves, here, moves, f.queued);
    SameLane(f.queued, ep, listing, band, agent);
  }

  lemma SameLane(q: seq<Request>, ep: string, listing: seq<Request>, band: Band, agent: string)
    requires Lists(q, ep, listing) && band != Background
    ensures Filter(Lane(ep, band, agent), listing) == Filter(Lane(ep, band, agent), q)
  {}
}
