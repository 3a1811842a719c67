/** Who is turned away over a run, and that the refusal counters count exactly
    them: a background request is never refused, and never counted. */
module FailoverRefusals {
  import opened Prelude
  import opened Seqs
  import opened Failover
  import opened FailoverCohort
  import opened FailoverRuns
  import opened FailoverHops

  /** A request closed with an error, what failover had to say about it, and in
      which situation. */
  datatype Turned = Turned(r: Request, plan: Plan, degraded: set<string>, up: set<string>)

  function Turn(d: set<string>, c: Catalog, up: set<string>): Request -> Turned {
    (r: Request) => Turned(r, PlanFor(d, c, up, r), d, up)
  }

  /** The requests an event turns away. */
  function Turning(f: Fleet, c: Catalog, e: Event): seq<Turned> {
    match e
    case Submit(r, up, now) =>
      var d := Refreshed(f, c, up, now).degraded;
      if r.endpoint !in up && !PlanFor(d, c, up, r).Reroute? && r.band != Background then [Turn(d, c, up)(r)] else []
    case FastFail(ep, up, now, listing) =>
      var d := Refreshed(f, c, up, now).degraded;
      Map(Turn(d, c, up), Filter(Doomed(d, c, up), listing))
    case _ => []
  }

  function AllTurned(c: Catalog, evs: seq<Event>): seq<Turned> {
    if evs == [] then []
    else AllTurned(c, evs[..|evs| - 1]) + Turning(Run(c, evs[..|evs| - 1]), c, evs[|evs| - 1])
  }

  /** Refused with this code, on account of this endpoint. */
  function Under(k: (string, Code)): Turned -> bool {
    (t: Turned) => t.plan.Refuse? && (t.r.degradedFrom.GetOr(t.r.endpoint), t.plan.code) == k
  }

  function InError(): Closed -> bool {
    (x: Closed) => x.outcome != Finished
  }

  function TurnedIds(s: seq<Turned>): seq<string> {
    Map((t: Turned) => t.r.id, s)
  }

  // ------------------------------------------------------------------- cohorts

  /** What a log of turned requests adds to the fleet's books. */
  ghost predicate Booked(f: Fleet, g: Fleet, t: seq<Turned>, k: (string, Code)) {
    && Tally(g.refused, k) == Tally(f.refused, k) + |Filter(Under(k), t)|
    && ClosedIds(Filter(InError(), g.closed)) == ClosedIds(Filter(InError(), f.closed)) + TurnedIds(t)
  }

  lemma BookedMore(f: Fleet, g: Fleet, h: Fleet, t: seq<Turned>, x: Turned, out: Outcome, k: (string, Code))
    requires Booked(f, g, t, k) && out != Finished
    requires h.refused == Refused(g.refused, x.r, x.plan) && h.closed == g.closed + [Closed(x.r.id, out)]
    ensures Booked(f, h, t + [x], k)
  {
    hide Filter, Tally, Bump;
    FilterSnoc(Under(k), t, x);
    FilterSnoc(InError(), g.closed, Closed(x.r.id, out));
    if x.plan.Refuse? {
      BumpTally(g.refused, (x.r.degradedFrom.GetOr(x.r.endpoint), x.plan.code), k);
    }
    var errors := Filter(InError(), g.closed);
    assert ClosedIds(errors + [Closed(x.r.id, out)]) == ClosedIds(errors) + [x.r.id];
    assert TurnedIds(t + [x]) == TurnedIds(t) + [x.r.id];
  }

  lemma BookedNone(f: Fleet, g: Fleet, k: (string, Code))
    requires g.refused == f.refused && g.closed == f.closed
    ensures Booked(f, g, [], k)
  {
    assert TurnedIds([]) == [];
    var ids := ClosedIds(Filter(InError(), f.closed));
    assert ids + [] == ids;
  }

  lemma {:induction false} MoveAllBooks(f: Fleet, c: Catalog, up: set<string>, cohort: seq<Request>, k: (string, Code))
    ensures var g := MoveAll(f, c, up, cohort);
            && g.degraded == f.degraded
            && Booked(f, g, Map(Turn(f.degraded, c, up), Filter(Doomed(f.degraded, c, up), cohort)), k)
  {
    hide PlanFor, Cancelled, Bump, Repointed, Refused, Booked, Filter, Map;
    var d := f.degraded;
    if cohort == [] {
      NoneDoomed(d, c, up);
      BookedNone(f, f, k);
    } else {
      var n := |cohort| - 1;
      var r := cohort[n];
      assert cohort == cohort[..n] + [r];
      MoveAllBooks(f, c, up, cohort[..n], k);
      var g := MoveAll(f, c, up, cohort[..n]);
      var doomed := Filter(Doomed(d, c, up), cohort[..n]);
      FilterSnoc(Doomed(d, c, up), cohort[..n], r);
      MapSnoc(Turn(d, c, up), doomed, r);
      if PlanFor(d, c, up, r).Reroute? {
        SameBooks(f, g, MoveOne(g, c, up, r), Map(Turn(d, c, up), doomed), k);
      } else {
        BookedMore(f, g, MoveOne(g, c, up, r), Map(Turn(d, c, up), doomed), Turn(d, c, up)(r), FailedFast, k);
      }
    }
  }

  lemma NoneDoomed(d: set<string>, c: Catalog, up: set<string>)
    ensures Map(Turn(d, c, up), Filter(Doomed(d, c, up), [])) == []
  {}

  lemma SameBooks(f: Fleet, g: Fleet, h: Fleet, t: seq<Turned>, k: (string, Code))
    requires Booked(f, g, t, k) && h.refused == g.refused && h.closed == g.closed
    ensures Booked(f, h, t, k)
  {}

  // ---------------------------------------------------------------------- runs

  lemma RefreshBooks(f: Fleet, c: Catalog, up: set<string>, now: real)
    ensures var g := Refreshed(f, c, up, now);
            g.refused == f.refused && g.closed == f.closed && g.queued == f.queued
  {}

  lemma SubmitBooks(f: Fleet, c: Catalog, up: set<string>, now: real, r: Request, k: (string, Code))
    ensures Booked(f, Submitted(f, c, up, now, r), Turning(f, c, Submit(r, up, now)), k)
  {
    hide Refreshed, PlanFor, Refused, Booked;
    RefreshBooks(f, c, up, now);
    var g := Submitted(f, c, up, now, r);
    var d := Refreshed(f, c, up, now).degraded;
    if r.endpoint !in up && !PlanFor(d, c, up, r).Reroute? && r.band != Background {
      BookedNone(f, f, k);
      BookedMore(f, f, g, [], Turn(d, c, up)(r), TurnedAway, k);
      assert [] + [Turn(d, c, up)(r)] == [Turn(d, c, up)(r)];
    } else {
      BookedNone(f, g, k);
    }
  }

  lemma ShuffleBooks(f: Fleet, c: Catalog, e: Event, k: (string, Code))
    requires e.Dispatch? || e.Complete? || e.Expire?
    ensures Booked(f, Step(f, c, e), [], k)
  {
    hide Filter, Tally;
    var g := Step(f, c, e);
    if g.closed == f.closed {
      BookedNone(f, g, k);
    } else {
      var x := g.closed[|f.closed|];
      assert g.closed == f.closed + [x] && x.outcome == Finished;
      FilterSnoc(InError(), f.closed, x);
      BookedNone(f, g.(closed := f.closed), k);
    }
  }

  lemma StepBooks(f: Fleet, c: Catalog, e: Event, k: (string, Code))
    ensures Booked(f, Step(f, c, e), Turning(f, c, e), k)
  {
    hide Refreshed, PlanFor, Booked, MoveAll, Submitted;
    match e {
      case Submit(r, up, now) => SubmitBooks(f, c, up, now, r, k);
      case FastFail(ep, up, now, listing) =>
        RefreshBooks(f, c, up, now);
        var g := Refreshed(f, c, up, now);
        MoveAllBooks(g, c, up, listing, k);
        FromRefreshed(f, g, Step(f, c, e), Turning(f, c, e), k);
      case Tick(up, now) =>
        RefreshBooks(f, c, up, now);
        BookedNone(f, Step(f, c, e), k);
      case _ => ShuffleBooks(f, c, e, k);
    }
  }

  lemma FromRefreshed(f: Fleet, g: Fleet, h: Fleet, t: seq<Turned>, k: (string, Code))
    requires Booked(g, h, t, k) && g.refused == f.refused && g.closed == f.closed
    ensures Booked(f, h, t, k)
  {}

  lemma BookedTwice(f: Fleet, g: Fleet, h: Fleet, t: seq<Turned>, u: seq<Turned>, k: (string, Code))
    requires Booked(f, g, t, k) && Booked(g, h, u, k)
    ensures Booked(f, h, t + u, k)
  {
    hide Filter, Tally;
    FilterConcat(Under(k), t, u);
    assert TurnedIds(t + u) == TurnedIds(t) + TurnedIds(u);
    var ids := ClosedIds(Filter(InError(), f.closed));
    assert ids + TurnedIds(t) + TurnedIds(u) == ids + (TurnedIds(t) + TurnedIds(u));
  }

  lemma {:induction false} RunBooks(c: Catalog, evs: seq<Event>, k: (string, Code))
    ensures Booked(Start, Run(c, evs), AllTurned(c, evs), k)
  {
    hide Step, Turning, Booked;
    if evs == [] {
      BookedNone(Start, Start, k);
    } else {
      var n := |evs| - 1;
      RunBooks(c, evs[..n], k);
      var f := Run(c, evs[..n]);
      StepBooks(f, c, evs[n], k);
      BookedTwice(Start, f, Run(c, evs), AllTurned(c, evs[..n]), Turning(f, c, evs[n]), k);
    }
  }

  lemma TurnedNotBackground(f: Fleet, c: Catalog, e: Event, t: Turned)
    requires t in Turning(f, c, e) && (e.FastFail? ==> Lists(f.queued, e.ep, e.listing))
    ensures t.r.band != Background && !t.plan.Reroute? && PlanIs(t.degraded, c, t.up, t.r, t.plan)
  {
    hide Refreshed, PlanFor, Filter, PlanIs;
    PlanMeans(t.degraded, c, t.up, t.r);
    if e.FastFail? {
      var d := Refreshed(f, c, e.up, e.now).degraded;
      var doomed := Filter(Doomed(d, c, e.up), e.listing);
      var i :| 0 <= i < |doomed| && Map(Turn(d, c, e.up), doomed)[i] == t;
      FilterMember(Doomed(d, c, e.up), e.listing, doomed[i]);
      assert doomed[i] in multiset(e.listing);
      FilterMember(Cohort(e.ep), f.queued, doomed[i]);
    }
  }

  lemma {:induction false} NoneBackground(c: Catalog, evs: seq<Event>, t: Turned)
    requires t in AllTurned(c, evs) && Listed(c, evs)
    ensures t.r.band != Background && !t.plan.Reroute? && PlanIs(t.degraded, c, t.up, t.r, t.plan)
  {
    hide Turning, Run, Lists, PlanIs;
    var n := |evs| - 1;
    if t in AllTurned(c, evs[..n]) {
      NoneBackground(c, evs[..n], t);
    } else {
      TurnedNotBackground(Run(c, evs[..n]), c, evs[n], t);
    }
  }

  /** In every run the requests closed with an error are exactly the turned ones,
      in order; none of them is a background request or could have been rerouted;
      each was refused for its own reason, for its length exactly when it is a chat
      request of a consenting agent that is longer than the target's known context;
      and the counter of an endpoint and a code is the number of those refused on
      its account with that code. */
  lemma RefusalsAreCounted(c: Catalog, evs: seq<Event>, k: (string, Code))
    requires Listed(c, evs)
    ensures var f := Run(c, evs);
            var t := AllTurned(c, evs);
            && ClosedIds(Filter(InError(), f.closed)) == TurnedIds(t)
            && Tally(f.refused, k) == |Filter(Under(k), t)|
            && forall x :: x in t ==>
                 x.r.band != Background && !x.plan.Reroute? && PlanIs(x.degraded, c, x.up, x.r, x.plan)
  {
    hide Run, AllTurned, Filter, Tally, Listed, PlanIs;
    RunBooks(c, evs, k);
    StartBooks(k);
    assert [] + TurnedIds(AllTurned(c, evs)) == TurnedIds(AllTurned(c, evs));
    forall x | x in AllTurned(c, evs)
      ensures x.r.band != Background && !x.plan.Reroute? && PlanIs(x.degraded, c, x.up, x.r, x.plan)
    {
      NoneBackground(c, evs, x);
    }
  }

  lemma StartBooks(k: (string, Code))
    ensures ClosedIds(Filter(InError(), Start.closed)) == [] && Tally(Start.refused, k) == 0
  {}
}
