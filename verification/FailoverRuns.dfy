/** Failover over whole runs: when requests may be in flight degraded, how long a
    degraded spell lasts, who is rerouted and how often, and where everyone is. */
module FailoverRuns {
  import opened Prelude
  import opened Seqs
  import opened Failover
  import opened FailoverCohort

  datatype Event =
    | Tick(up: set<string>, now: real)
    | Submit(r: Request, up: set<string>, now: real)
    | FastFail(ep: string, up: set<string>, now: real, listing: seq<Request>)
    | Dispatch(i: nat)
    | Complete(i: nat)
    | Expire(i: nat)

  function Drop(s: seq<Request>, i: nat): seq<Request>
    requires i < |s|
  {
    s[..i] + s[i + 1..]
  }

  function Step(f: Fleet, c: Catalog, e: Event): Fleet {
    match e
    case Tick(up, now) => Refreshed(f, c, up, now)
    case Submit(r, up, now) => Submitted(f, c, up, now, r)
    case FastFail(ep, up, now, listing) => FailedOver(f, c, up, now, listing)
    case Dispatch(i) =>
      if i < |f.queued| then f.(queued := Drop(f.queued, i), active := f.active + [f.queued[i]]) else f
    case Complete(i) =>
      if i < |f.active| then f.(active := Drop(f.active, i), closed := f.closed + [Closed(f.active[i].id, Finished)]) else f
    case Expire(i) =>
      if i < |f.queued| then f.(queued := Drop(f.queued, i), closed := f.closed + [Closed(f.queued[i].id, Finished)]) else f
  }

  const Start: Fleet := Fleet({}, map[], map[], map[], [], [], [])

  function Run(c: Catalog, evs: seq<Event>): Fleet {
    if evs == [] then Start else Step(Run(c, evs[..|evs| - 1]), c, evs[|evs| - 1])
  }

  /** A submitted request has not been rerouted yet. */
  predicate Proper(evs: seq<Event>) {
    forall i :: 0 <= i < |evs| && evs[i].Submit? ==> evs[i].r.degradedFrom == None
  }

  // ------------------------------------------------------------ what is in flight

  predicate LiveOk(degraded: set<string>, c: Catalog, r: Request) {
    r.degradedFrom.Some? ==>
      var src := r.degradedFrom.value;
      && src in degraded && src in Pairs(c) && r.endpoint == Pairs(c)[src]
      && r.agent in c.degradeOk && !r.declines
      && (r.chat && c.endpoints[r.endpoint].context > 0 ==> r.tokens <= c.endpoints[r.endpoint].context)
      && r.ctxAtAdmission == c.endpoints[r.endpoint].context
  }

  predicate AllLive(degraded: set<string>, c: Catalog, s: seq<Request>) {
    forall r :: r in s ==> LiveOk(degraded, c, r)
  }

  ghost predicate Sound(f: Fleet, c: Catalog) {
    && f.since.Keys == f.degraded && (forall s :: s in f.degraded ==> s in Pairs(c) && Pairs(c)[s] != s)
    && AllLive(f.degraded, c, f.queued) && AllLive(f.degraded, c, f.active)
  }

  lemma NoneInflight(queued: seq<Request>, active: seq<Request>, src: string, r: Request)
    requires Inflight(queued, active, src) == 0 && (r in queued || r in active)
    ensures r.degradedFrom != Some(src)
  {
    FilterMember(CameFrom(src), queued, r);
    FilterMember(CameFrom(src), active, r);
  }

  lemma RefreshSound(f: Fleet, c: Catalog, up: set<string>, now: real)
    requires Sound(f, c)
    ensures Sound(Refreshed(f, c, up, now), c)
  {
    hide Refreshed, Inflight;
    var g := Refreshed(f, c, up, now);
    forall s ensures (s in g.degraded <==> s in g.since) && (s in g.degraded ==> s in Pairs(c) && Pairs(c)[s] != s) {
      RefreshedAt(f, c, up, now, s);
    }
    RefreshKeeps(f, c, up, now);
    forall r | r in f.queued || r in f.active ensures LiveOk(g.degraded, c, r) {
      if r.degradedFrom.Some? {
        var src := r.degradedFrom.value;
        RefreshedAt(f, c, up, now, src);
        if Leaves(f, c, up, now, src) {
          NoneInflight(f.queued, f.active, src, r);
        }
      }
    }
  }

  lemma RefreshKeeps(f: Fleet, c: Catalog, up: set<string>, now: real)
    ensures var g := Refreshed(f, c, up, now);
            g.queued == f.queued && g.active == f.active && g.closed == f.closed && g.rerouted == f.rerouted
  {}

  lemma RepointedOk(degraded: set<string>, c: Catalog, up: set<string>, r: Request)
    requires PlanFor(degraded, c, up, r).Reroute?
    ensures LiveOk(degraded, c, Repointed(r, c, PlanFor(degraded, c, up, r).target))
  {}

  lemma {:induction false} WithoutWithin(q: seq<Request>, id: string, x: Request)
    requires x in Cancelled(q, id)
    ensures x in q
  {
    if q[0].id != id && x != q[0] {
      WithoutWithin(q[1..], id, x);
    }
  }

  lemma {:induction false} MoveAllSound(f: Fleet, c: Catalog, up: set<string>, cohort: seq<Request>)
    requires Sound(f, c)
    ensures var g := MoveAll(f, c, up, cohort); Sound(g, c) && g.degraded == f.degraded && g.since == f.since
  {
    hide PlanFor, Cancelled, LiveOk;
    if cohort != [] {
      var n := |cohort| - 1;
      MoveAllSound(f, c, up, cohort[..n]);
      var g, r := MoveAll(f, c, up, cohort[..n]), cohort[n];
      forall x | x in Cancelled(g.queued, r.id) ensures LiveOk(g.degraded, c, x) {
        WithoutWithin(g.queued, r.id, x);
      }
      if PlanFor(g.degraded, c, up, r).Reroute? {
        RepointedOk(g.degraded, c, up, r);
      }
    }
  }

  lemma SubmitSound(f: Fleet, c: Catalog, up: set<string>, now: real, r: Request)
    requires Sound(f, c) && r.degradedFrom == None
    ensures Sound(Submitted(f, c, up, now, r), c)
  {
    hide Refreshed, PlanFor;
    RefreshSound(f, c, up, now);
    var g := Refreshed(f, c, up, now);
    if PlanFor(g.degraded, c, up, r).Reroute? {
      RepointedOk(g.degraded, c, up, r);
    }
  }

  lemma StepSound(f: Fleet, c: Catalog, e: Event)
    requires Sound(f, c) && (e.Submit? ==> e.r.degradedFrom == None)
    ensures Sound(Step(f, c, e), c)
  {
    hide Refreshed, PlanFor, LiveOk, MoveAll, Submitted;
    match e {
      case Tick(up, now) => RefreshSound(f, c, up, now);
      case Submit(r, up, now) => SubmitSound(f, c, up, now, r);
      case FastFail(ep, up, now, listing) =>
        RefreshSound(f, c, up, now);
        MoveAllSound(Refreshed(f, c, up, now), c, up, listing);
      case Dispatch(i) =>
      case Complete(i) =>
      case Expire(i) =>
    }
  }

  /** In every run, a request that was rerouted away from `src` is queued or in
      flight only while `src` is in degraded mode, and only on the target of
      `src`, for an agent that opted in, not declined by the caller, and fitting
      the target's context. */
  lemma {:induction false} DegradedOnlyInMode(c: Catalog, evs: seq<Event>)
    requires Proper(evs)
    ensures Sound(Run(c, evs), c)
  {
    hide Sound, Step;
    if evs == [] {
      StartSound(c);
    } else {
      var n := |evs| - 1;
      ProperPrefix(evs);
      DegradedOnlyInMode(c, evs[..n]);
      StepSound(Run(c, evs[..n]), c, evs[n]);
    }
  }

  lemma StartSound(c: Catalog)
    ensures Sound(Start, c)
  {}

  // ------------------------------------------------------------ enter and leave

  datatype Change = Entered(at: real) | Left(at: real)

  function Clock(e: Event): real {
    match e
    case Tick(_, now) => now
    case Submit(_, _, now) => now
    case FastFail(_, _, now, _) => now
    case _ => 0.0
  }

  function Changed(before: set<string>, after: set<string>, src: string, at: real): seq<Change> {
    if src in before && src !in after then [Left(at)]
    else if src !in before && src in after then [Entered(at)]
    else []
  }

  /** The transitions of one endpoint over a run. */
  function Changes(c: Catalog, evs: seq<Event>, src: string): seq<Change> {
    if evs == [] then []
    else
      var n := |evs| - 1;
      Changes(c, evs[..n], src) + Changed(Run(c, evs[..n]).degraded, Run(c, evs).degraded, src, Clock(evs[n]))
  }

  /** ENTER and LEAVE alternate, at least the dwell apart. */
  predicate Dwells(ch: seq<Change>, dwell: real) {
    && (forall i :: 0 <= i < |ch| ==> (ch[i].Entered? <==> i % 2 == 0))
    && (forall i :: 0 <= i < |ch| && ch[i].Left? ==> i > 0 && ch[i].at - ch[i - 1].at >= dwell)
  }

  /** Only a refresh changes the mode; it is the first thing an event does. */
  lemma StepMode(f: Fleet, c: Catalog, e: Event, src: string)
    requires Sound(f, c)
    ensures var g := Step(f, c, e);
            || SameAt(f, g, src)
            || (!e.Dispatch? && !e.Complete? && !e.Expire? && SameAt(Refreshed(f, c, e.up, Clock(e)), g, src))
  {
    hide Refreshed, PlanFor, Filter, Inflight, MoveAll, Sound;
    match e {
      case Tick(up, now) =>
      case Submit(r, up, now) =>
      case FastFail(ep, up, now, listing) =>
        RefreshSound(f, c, up, now);
        MoveAllSound(Refreshed(f, c, up, now), c, up, listing);
      case Dispatch(i) =>
      case Complete(i) =>
      case Expire(i) =>
    }
  }

  /** The transitions so far account for the present mode of `src`. */
  ghost predicate Accounts(ch: seq<Change>, f: Fleet, src: string, dwell: real) {
    && Dwells(ch, dwell)
    && (src in f.degraded <==> |ch| % 2 == 1)
    && (src in f.degraded ==> src in f.since && f.since[src] == ch[|ch| - 1].at)
  }

  lemma RefreshAccounts(ch: seq<Change>, f: Fleet, g: Fleet, c: Catalog, src: string, up: set<string>, now: real)
    requires src in Pairs(c) && Accounts(ch, f, src, c.endpoints[src].dwell)
    requires SameAt(Refreshed(f, c, up, now), g, src)
    ensures Accounts(ch + Changed(f.degraded, g.degraded, src, now), g, src, c.endpoints[src].dwell)
  {
    hide Refreshed, Inflight;
    RefreshedAt(f, c, up, now, src);
  }

  /** In every run, the ENTERs and LEAVEs of an endpoint alternate, each LEAVE at
      least the configured dwell after its ENTER; and the endpoint is degraded
      exactly between them, since the time of the ENTER. */
  lemma {:induction false} DwellHolds(c: Catalog, evs: seq<Event>, src: string)
    requires Proper(evs) && src in Pairs(c)
    ensures var ch := Changes(c, evs, src);
            var f := Run(c, evs);
            && Dwells(ch, c.endpoints[src].dwell)
            && (src in f.degraded <==> |ch| % 2 == 1)
            && (src in f.degraded ==> src in f.since && f.since[src] == ch[|ch| - 1].at)
  {
    hide Step, Sound, Refreshed, Dwells;
    if evs == [] {
      assert Dwells([], c.endpoints[src].dwell) by { NoChanges(c.endpoints[src].dwell); }
    } else {
      var n := |evs| - 1;
      ProperPrefix(evs);
      DwellHolds(c, evs[..n], src);
      DegradedOnlyInMode(c, evs[..n]);
      var f := Run(c, evs[..n]);
      StepMode(f, c, evs[n], src);
      if !SameAt(f, Step(f, c, evs[n]), src) {
        RefreshAccounts(Changes(c, evs[..n], src), f, Step(f, c, evs[n]), c, src, evs[n].up, Clock(evs[n]));
      } else {
        assert Changes(c, evs, src) == Changes(c, evs[..n], src);
      }
    }
  }

  lemma NoChanges(dwell: real)
    ensures Dwells([], dwell)
  {}

  lemma ProperPrefix(evs: seq<Event>)
    requires Proper(evs) && evs != []
    ensures Proper(evs[..|evs| - 1])
  {
    var n := |evs| - 1;
    forall i | 0 <= i < n && evs[..n][i].Submit? ensures evs[..n][i].r.degradedFrom == None {
      assert evs[i].Submit?;
    }
  }

  /** At a LEAVE the source is healthy and nothing degraded is left in flight,
      neither before the event nor after it. */
  lemma LeaveIsDrained(c: Catalog, evs: seq<Event>, src: string)
    requires Proper(evs) && evs != []
    requires src in Run(c, evs[..|evs| - 1]).degraded && src !in Run(c, evs).degraded
    ensures var f := Run(c, evs[..|evs| - 1]);
            var g := Run(c, evs);
            var e := evs[|evs| - 1];
            && !e.Dispatch? && !e.Complete? && !e.Expire? && src in e.up
            && Inflight(f.queued, f.active, src) == 0 && Inflight(g.queued, g.active, src) == 0
  {
    hide Step, Inflight, Refreshed;
    var n := |evs| - 1;
    var f, g := Run(c, evs[..n]), Run(c, evs);
    ProperPrefix(evs);
    DegradedOnlyInMode(c, evs[..n]);
    DegradedOnlyInMode(c, evs);
    StepMode(f, c, evs[n], src);
    RefreshedAt(f, c, evs[n].up, Clock(evs[n]), src);
    NobodyFrom(g, c, src);
  }

  lemma NobodyFrom(g: Fleet, c: Catalog, src: string)
    requires Sound(g, c) && src !in g.degraded
    ensures Inflight(g.queued, g.active, src) == 0
  {
    FilterNone(CameFrom(src), g.queued);
    FilterNone(CameFrom(src), g.active);
  }

  /** Refreshing twice at the same time and health is refreshing once. */
  lemma RefreshIdempotent(f: Fleet, c: Catalog, up: set<string>, now: real)
    ensures var g := Refreshed(f, c, up, now); Refreshed(g, c, up, now) == g
  {
    hide Refreshed, Inflight;
    var g := Refreshed(f, c, up, now);
    var h := Refreshed(g, c, up, now);
    RefreshKeeps(f, c, up, now);
    forall s ensures SameAt(g, h, s) {
      RefreshedAt(f, c, up, now, s);
      RefreshedAt(g, c, up, now, s);
    }
    RefreshesMode(g, c, up, now);
    AllSame(g, g, h, c, up, now);
  }

  lemma RefreshesMode(f: Fleet, c: Catalog, up: set<string>, now: real)
    ensures var g := Refreshed(f, c, up, now); g == f.(degraded := g.degraded, since := g.since)
  {}

  // ---------------------------------------------- the decisions, spelled out

  /** The endpoint declares a failover that exists and is not on demand. */
  predicate Usable(c: Catalog, src: string) {
    && src in c.endpoints && c.endpoints[src].failoverTo != ""
    && c.endpoints[src].failoverTo in c.endpoints && c.endpoints[src].failoverTo !in c.onDemand
  }

  lemma PairsAre(c: Catalog, src: string)
    ensures src in Pairs(c) <==> Usable(c, src)
    ensures Usable(c, src) ==> Pairs(c)[src] == c.endpoints[src].failoverTo
  {}

  /** A live request that was rerouted away from the endpoint. */
  ghost predicate Away(f: Fleet, src: string) {
    exists r :: (r in f.queued || r in f.active) && r.degradedFrom == Some(src)
  }

  lemma AwayIsInflight(f: Fleet, src: string)
    ensures Inflight(f.queued, f.active, src) == 0 <==> !Away(f, src)
  {
    hide Filter;
    var p := CameFrom(src);
    var q, a := Filter(p, f.queued), Filter(p, f.active);
    if Away(f, src) {
      var r :| (r in f.queued || r in f.active) && r.degradedFrom == Some(src);
      FilterMember(p, f.queued, r);
      FilterMember(p, f.active, r);
    } else {
      if q != [] { FilterMember(p, f.queued, q[0]); }
      if a != [] { FilterMember(p, f.active, a[0]); }
    }
  }

  /** A refresh, endpoint by endpoint. One that is not degraded becomes so exactly
      when it declares a usable failover, is unhealthy itself and its target is
      healthy, from now on; one that is degraded stops exactly when it is healthy,
      nothing rerouted away from it is live, and the dwell has passed; and nothing
      else changes. */
  lemma ModeMeans(f: Fleet, c: Catalog, up: set<string>, now: real, s: string)
    requires s in f.degraded <==> s in f.since
    ensures var g := Refreshed(f, c, up, now);
            && (s !in f.degraded ==>
                  (s in g.degraded <==> Usable(c, s) && s !in up && c.endpoints[s].failoverTo in up))
            && (s in f.degraded ==>
                  (s !in g.degraded <==>
                     Usable(c, s) && s in up && !Away(f, s) && now - f.since[s] >= c.endpoints[s].dwell))
            && (s in g.degraded <==> s in g.since)
            && (s in g.degraded ==> g.since[s] == if s in f.degraded then f.since[s] else now)
  {
    hide Refreshed, Inflight, Away;
    RefreshedAt(f, c, up, now, s);
    PairsAre(c, s);
    AwayIsInflight(f, s);
  }

  /** Degraded routing is open for requests of this endpoint. */
  predicate Open(degraded: set<string>, c: Catalog, up: set<string>, src: string) {
    Usable(c, src) && src in degraded && c.endpoints[src].failoverTo in up
  }

  predicate Consents(c: Catalog, r: Request) {
    r.agent in c.degradeOk && !r.declines
  }

  /** A chat request for which the target's context is known and too small. */
  predicate TooLong(c: Catalog, r: Request)
    requires Usable(c, r.endpoint)
  {
    var context := c.endpoints[c.endpoints[r.endpoint].failoverTo].context;
    r.chat && context > 0 && r.tokens > context
  }

  /** The plan for a request: none while degraded routing is not open; else a
      refusal without consent, else a refusal of one that is too long, else a
      reroute to the declared target. */
  predicate PlanIs(degraded: set<string>, c: Catalog, up: set<string>, r: Request, p: Plan) {
    if !Open(degraded, c, up, r.endpoint) then p == NoPlan
    else if !Consents(c, r) then p == Refuse(NotOptedIn)
    else if TooLong(c, r) then p == Refuse(ContextOverflow)
    else p == Reroute(c.endpoints[r.endpoint].failoverTo)
  }

  lemma PlanMeans(degraded: set<string>, c: Catalog, up: set<string>, r: Request)
    ensures PlanIs(degraded, c, up, r, PlanFor(degraded, c, up, r))
  {}

  // ------------------------------------------------- requests keep what they ask

  /** All but the routing. */
  function Asked(r: Request): Request {
    r.(endpoint := "", degradedFrom := None, ctxAtAdmission := 0)
  }

  ghost predicate FromSubmitted(s: seq<Request>, evs: seq<Event>) {
    forall r :: r in s ==> exists i :: 0 <= i < |evs| && evs[i].Submit? && Asked(evs[i].r) == Asked(r)
  }

  lemma SubmittedMore(s: seq<Request>, evs: seq<Event>, e: Event)
    requires FromSubmitted(s, evs)
    ensures FromSubmitted(s, evs + [e])
  {
    forall r | r in s ensures exists i :: 0 <= i < |evs + [e]| && (evs + [e])[i].Submit? && Asked((evs + [e])[i].r) == Asked(r) {
      var i :| 0 <= i < |evs| && evs[i].Submit? && Asked(evs[i].r) == Asked(r);
      assert (evs + [e])[i] == evs[i];
    }
  }

  lemma RepointedFrom(s: seq<Request>, t: seq<Request>, r: Request, moved: Request, evs: seq<Event>)
    requires FromSubmitted(s, evs) && FromSubmitted(t, evs) && r in t && Asked(moved) == Asked(r)
    ensures FromSubmitted(s + [moved], evs)
  {}

  lemma {:induction false} MoveAllAsks(f: Fleet, c: Catalog, up: set<string>, cohort: seq<Request>, evs: seq<Event>)
    requires FromSubmitted(f.queued, evs) && FromSubmitted(cohort, evs)
    ensures var g := MoveAll(f, c, up, cohort); FromSubmitted(g.queued, evs) && g.active == f.active
  {
    hide PlanFor, Cancelled, FromSubmitted;
    if cohort != [] {
      var n := |cohort| - 1;
      PartFrom(cohort[..n], cohort, evs);
      MoveAllAsks(f, c, up, cohort[..n], evs);
      var g, r := MoveAll(f, c, up, cohort[..n]), cohort[n];
      var rest := Cancelled(g.queued, r.id);
      forall x | x in rest ensures x in g.queued { WithoutWithin(g.queued, r.id, x); }
      PartFrom(rest, g.queued, evs);
      var p := PlanFor(g.degraded, c, up, r);
      if p.Reroute? { RepointedFrom(rest, cohort, r, Repointed(r, c, p.target), evs); }
    }
  }

  lemma StepAsks(f: Fleet, c: Catalog, evs: seq<Event>, e: Event)
    requires FromSubmitted(f.queued, evs) && FromSubmitted(f.active, evs)
    requires e.FastFail? ==> forall r :: r in e.listing ==> r in f.queued
    ensures var g := Step(f, c, e);
            FromSubmitted(g.queued, evs + [e]) && FromSubmitted(g.active, evs + [e])
  {
    hide Refreshed, PlanFor, MoveAll, FromSubmitted;
    SubmittedMore(f.queued, evs, e);
    SubmittedMore(f.active, evs, e);
    match e {
      case Tick(up, now) => RefreshKeeps(f, c, up, now);
      case Submit(r, up, now) =>
        RefreshKeeps(f, c, up, now);
        SubmitAsks(f, c, evs, e);
      case FastFail(ep, up, now, listing) =>
        RefreshKeeps(f, c, up, now);
        PartFrom(listing, f.queued, evs + [e]);
        MoveAllAsks(Refreshed(f, c, up, now), c, up, listing, evs + [e]);
      case Dispatch(i) =>
        var g := Step(f, c, e);
        PartFrom(g.queued, f.queued, evs + [e]);
        BothFrom(g.active, f.active, f.queued, evs + [e]);
      case Complete(i) => PartFrom(Step(f, c, e).active, f.active, evs + [e]);
      case Expire(i) => PartFrom(Step(f, c, e).queued, f.queued, evs + [e]);
    }
  }

  lemma PartFrom(s: seq<Request>, t: seq<Request>, evs: seq<Event>)
    requires FromSubmitted(t, evs) && forall r :: r in s ==> r in t
    ensures FromSubmitted(s, evs)
  {}

  lemma BothFrom(s: seq<Request>, t: seq<Request>, u: seq<Request>, evs: seq<Event>)
    requires FromSubmitted(t, evs) && FromSubmitted(u, evs) && forall r :: r in s ==> r in t || r in u
    ensures FromSubmitted(s, evs)
  {}

  lemma SubmitAsks(f: Fleet, c: Catalog, evs: seq<Event>, e: Event)
    requires FromSubmitted(f.queued, evs + [e]) && e.Submit?
    ensures FromSubmitted(Step(f, c, e).queued, evs + [e])
  {
    hide Refreshed, PlanFor;
    RefreshKeeps(f, c, e.up, e.now);
    var all := evs + [e];
    var g := Step(f, c, e);
    assert all[|evs|] == e;
    forall x | x in g.queued ensures exists i :: 0 <= i < |all| && all[i].Submit? && Asked(all[i].r) == Asked(x) {
      if x !in f.queued {
        assert Asked(x) == Asked(e.r);
      }
    }
  }

  /** At every fast fail, what is listed is queued. */
  ghost predicate ListsQueued(c: Catalog, evs: seq<Event>) {
    evs == [] ||
    (var n := |evs| - 1;
     ListsQueued(c, evs[..n])
     && (evs[n].FastFail? ==> forall r :: r in evs[n].listing ==> r in Run(c, evs[..n]).queued))
  }

  lemma {:induction false} LiveAsAsked(c: Catalog, evs: seq<Event>)
    requires ListsQueued(c, evs)
    ensures FromSubmitted(Run(c, evs).queued, evs) && FromSubmitted(Run(c, evs).active, evs)
  {
    hide Step, FromSubmitted;
    if evs == [] {
      NobodyFromNothing();
    } else {
      var n := |evs| - 1;
      LiveAsAsked(c, evs[..n]);
      StepAsks(Run(c, evs[..n]), c, evs[..n], evs[n]);
      assert evs == evs[..n] + [evs[n]];
    }
  }

  lemma NobodyFromNothing()
    ensures FromSubmitted([], [])
  {}
}
