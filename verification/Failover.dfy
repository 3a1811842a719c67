/** Degraded routing: `failover.py`, and the parts of the submit path and of
    `fast_fail_interactive` that use it. The scheduler's queues appear as one
    sequence in arrival order; a request's `endpoint` says whose queue it is in. */
module Failover {
  import opened Prelude
  import opened Seqs

  // -------------------------------------------------------------------- data

  datatype Endpoint = Endpoint(failoverTo: string, dwell: real, context: int)

  /** Configuration: the endpoints, the on-demand ones, the agents opted in. */
  datatype Catalog = Catalog(endpoints: map<string, Endpoint>, onDemand: set<string>, degradeOk: set<string>)

  datatype Band = Interactive | Foreground | Background

  /** `tokens` is the estimated input plus the requested output; `declines` is
      `allow_degrade is False`. */
  datatype Request = Request(id: string, agent: string, band: Band, endpoint: string,
                             degradedFrom: Option<string>, chat: bool, tokens: nat,
                             declines: bool, ctxAtAdmission: int)

  datatype Code = NotOptedIn | ContextOverflow

  datatype Plan = Reroute(target: string) | Refuse(code: Code) | NoPlan

  datatype Outcome = Finished | TurnedAway | FailedFast

  datatype Closed = Closed(id: string, outcome: Outcome)

  datatype Fleet = Fleet(
    degraded: set<string>,
    since: map<string, real>,
    rerouted: map<string, nat>,
    refused: map<(string, Code), nat>,
    queued: seq<Request>,
    active: seq<Request>,
    closed: seq<Closed>)

  // ------------------------------------------------------------------- modes

  /** `pairs`: the usable failovers. */
  function Pairs(c: Catalog): map<string, string> {
    map ep | ep in c.endpoints && c.endpoints[ep].failoverTo != ""
             && c.endpoints[ep].failoverTo in c.endpoints && c.endpoints[ep].failoverTo !in c.onDemand
      :: c.endpoints[ep].failoverTo
  }

  function CameFrom(src: string): Request -> bool {
    (r: Request) => r.degradedFrom == Some(src)
  }

  /** `degraded_inflight` */
  function Inflight(queued: seq<Request>, active: seq<Request>, src: string): nat {
    |Filter(CameFrom(src), active)| + |Filter(CameFrom(src), queued)|
  }

  function SinceOr(since: map<string, real>, src: string, now: real): real {
    if src in since then since[src] else now
  }

  predicate Enters(f: Fleet, c: Catalog, up: set<string>, src: string) {
    src in Pairs(c) && src !in f.degraded && src !in up && Pairs(c)[src] in up
  }

  predicate Leaves(f: Fleet, c: Catalog, up: set<string>, now: real, src: string) {
    && src in Pairs(c) && src in f.degraded && src in up
    && Inflight(f.queued, f.active, src) == 0
    && now - SinceOr(f.since, src, now) >= c.endpoints[src].dwell
  }

  /** `refresh`: `up` is the set of endpoints that read healthy. */
  function Refreshed(f: Fleet, c: Catalog, up: set<string>, now: real): Fleet {
    f.(degraded := (set s | s in f.degraded && !Leaves(f, c, up, now, s)) + (set s | s in Pairs(c) && Enters(f, c, up, s)),
       since := map s | s in f.since.Keys + Pairs(c).Keys
                        && (Enters(f, c, up, s) || (s in f.since && !Leaves(f, c, up, now, s)))
                  :: if Enters(f, c, up, s) then now else f.since[s])
  }

  /** Two fleets in the same mode as far as one endpoint goes. */
  predicate SameAt(f: Fleet, g: Fleet, s: string) {
    && (s in f.degraded <==> s in g.degraded)
    && (s in f.since <==> s in g.since)
    && (s in f.since ==> f.since[s] == g.since[s])
  }

  lemma RefreshedAt(f: Fleet, c: Catalog, up: set<string>, now: real, s: string)
    ensures var g := Refreshed(f, c, up, now);
            && (s in g.degraded <==> Enters(f, c, up, s) || (s in f.degraded && !Leaves(f, c, up, now, s)))
            && (s in g.since <==> Enters(f, c, up, s) || (s in f.since && !Leaves(f, c, up, now, s)))
            && (s in g.since ==> g.since[s] == if Enters(f, c, up, s) then now else f.since[s])
  {}

  lemma AllSame(h: Fleet, f: Fleet, g: Fleet, c: Catalog, up: set<string>, now: real)
    requires g == Refreshed(f, c, up, now) && forall s :: SameAt(h, g, s)
    requires h == f.(degraded := h.degraded, since := h.since)
    ensures h == g
  {
    hide Pairs, Enters, Leaves;
    forall s ensures s in h.degraded <==> s in g.degraded { assert SameAt(h, g, s); }
    forall s ensures s in h.since <==> s in g.since { assert SameAt(h, g, s); }
    forall s | s in h.since ensures h.since[s] == g.since[s] { assert SameAt(h, g, s); }
    assert h.degraded == g.degraded && h.since == g.since;
  }

  // ------------------------------------------------------------------- gates

  /** `context_fit`: only chat is gated, and an unknown limit admits. */
  predicate Fits(r: Request, limit: int) {
    !r.chat || limit <= 0 || r.tokens <= limit
  }

  /** `plan` */
  function PlanFor(degraded: set<string>, c: Catalog, up: set<string>, r: Request): (p: Plan)
    ensures p.Reroute? ==> p.target in c.endpoints
  {
    var src := r.endpoint;
    if src !in Pairs(c) || src !in degraded then NoPlan
    else
      var tgt := Pairs(c)[src];
      if tgt !in up then NoPlan
      else if r.agent !in c.degradeOk then Refuse(NotOptedIn)
      else if r.declines then Refuse(NotOptedIn)
      else if !Fits(r, c.endpoints[tgt].context) then Refuse(ContextOverflow)
      else Reroute(tgt)
  }

  /** `apply`, on the request. */
  function Repointed(r: Request, c: Catalog, tgt: string): Request
    requires tgt in c.endpoints
  {
    r.(degradedFrom := Some(r.endpoint), endpoint := tgt, ctxAtAdmission := c.endpoints[tgt].context)
  }

  function Bump<K>(m: map<K, nat>, k: K): map<K, nat> {
    m[k := (if k in m then m[k] else 0) + 1]
  }

  /** `record_refusal` */
  function Refused(m: map<(string, Code), nat>, r: Request, p: Plan): map<(string, Code), nat> {
    if !p.Refuse? then m else Bump(m, (r.degradedFrom.GetOr(r.endpoint), p.code))
  }

  /** `cancel`: the first queued request with that id goes. */
  function Cancelled(q: seq<Request>, id: string): seq<Request> {
    if q == [] then []
    else if q[0].id == id then q[1..]
    else [q[0]] + Cancelled(q[1..], id)
  }

  // ----------------------------------------------------------------- cohorts

  function Cohort(ep: string): Request -> bool {
    (r: Request) => r.endpoint == ep && r.band != Background
  }

  function Lane(ep: string, band: Band, agent: string): Request -> bool {
    (r: Request) => r.endpoint == ep && r.band == band && r.agent == agent
  }

  /** What `queued_requests` returns for the cohort of an endpoint: exactly its
      requests, the interactive before the foreground ones, and those of one agent
      and band in the order they arrived. */
  ghost predicate Lists(q: seq<Request>, ep: string, listing: seq<Request>) {
    && multiset(listing) == multiset(Filter(Cohort(ep), q))
    && (forall i, j :: 0 <= i < j < |listing| && listing[i].band == Foreground ==> listing[j].band == Foreground)
    && (forall band, agent :: band != Background ==>
          Filter(Lane(ep, band, agent), listing) == Filter(Lane(ep, band, agent), q))
  }

  /** One turn of the loop in `fast_fail_interactive`. */
  function MoveOne(f: Fleet, c: Catalog, up: set<string>, r: Request): Fleet {
    var p := PlanFor(f.degraded, c, up, r);
    if p.Reroute? then
      f.(queued := Cancelled(f.queued, r.id) + [Repointed(r, c, p.target)],
         rerouted := Bump(f.rerouted, r.endpoint))
    else
      f.(queued := Cancelled(f.queued, r.id),
         refused := Refused(f.refused, r, p),
         closed := f.closed + [Closed(r.id, FailedFast)])
  }

  function MoveAll(f: Fleet, c: Catalog, up: set<string>, cohort: seq<Request>): Fleet {
    if cohort == [] then f
    else MoveOne(MoveAll(f, c, up, cohort[..|cohort| - 1]), c, up, cohort[|cohort| - 1])
  }

  /** `fast_fail_interactive` */
  function FailedOver(f: Fleet, c: Catalog, up: set<string>, now: real, listing: seq<Request>): Fleet {
    MoveAll(Refreshed(f, c, up, now), c, up, listing)
  }

  /** The circuit-breaker branch of the submit path, and the enqueue after it. */
  function Submitted(f: Fleet, c: Catalog, up: set<string>, now: real, r: Request): Fleet {
    if r.endpoint in up then f.(queued := f.queued + [r])
    else
      var g := Refreshed(f, c, up, now);
      var p := PlanFor(g.degraded, c, up, r);
      if p.Reroute? then
        g.(queued := g.queued + [Repointed(r, c, p.target)], rerouted := Bump(g.rerouted, r.endpoint))
      else if r.band != Background then
        g.(refused := Refused(g.refused, r, p), closed := g.closed + [Closed(r.id, TurnedAway)])
      else
        g.(queued := g.queued + [r])
  }

  // ----------------------------------------------------------- the live object

  class Proxy {
    const catalog: Catalog
    var degraded: set<string>
    var since: map<string, real>
    var rerouted: map<string, nat>
    var refused: map<(string, Code), nat>
    var queued: seq<Request>
    var active: seq<Request>
    var closed: seq<Closed>

    ghost function View(): Fleet
      reads this
    {
      Fleet(degraded, since, rerouted, refused, queued, active, closed)
    }

    constructor (catalog: Catalog)
      ensures this.catalog == catalog && View() == Fleet({}, map[], map[], map[], [], [], [])
    {
      this.catalog := catalog;
      degraded, since, rerouted, refused := {}, map[], map[], map[];
      queued, active, closed := [], [], [];
    }

    method DegradedInflight(src: string) returns (n: nat)
      ensures n == Inflight(queued, active, src)
    {
      n := 0;
      for i := 0 to |active|
        invariant n == |Filter(CameFrom(src), active[..i])|
      {
        assert active[..i + 1][..i] == active[..i];
        if active[i].degradedFrom == Some(src) { n := n + 1; }
      }
      assert active[..|active|] == active && queued[..0] == [];
      for i := 0 to |queued|
        invariant n == |Filter(CameFrom(src), active)| + |Filter(CameFrom(src), queued[..i])|
      {
        assert queued[..i + 1][..i] == queued[..i];
        if queued[i].degradedFrom == Some(src) { n := n + 1; }
      }
      assert queued[..|queued|] == queued;
    }

    /** The pairs are visited in whatever order the dictionary has. */
    method Refresh(up: set<string>, now: real)
      modifies this`degraded, this`since
      ensures View() == Refreshed(old(View()), catalog, up, now)
    {
      hide Inflight, Refreshed;
      ghost var f := View();
      ghost var g := Refreshed(f, catalog, up, now);
      var todo := Pairs(catalog).Keys;
      forall s ensures s !in todo ==> SameAt(f, g, s) { RefreshedAt(f, catalog, up, now, s); }
      while todo != {}
        invariant todo <= Pairs(catalog).Keys
        invariant forall s :: s in todo ==> SameAt(View(), f, s)
        invariant forall s :: s !in todo ==> SameAt(View(), g, s)
        decreases todo
      {
        var src :| src in todo;
        RefreshedAt(f, catalog, up, now, src);
        assert SameAt(View(), f, src);
        todo := todo - {src};
        if src in degraded {
          if src in up {
            var n := DegradedInflight(src);
            if n == 0 && !(now - SinceOr(since, src, now) < catalog.endpoints[src].dwell) {
              degraded, since := degraded - {src}, since - {src};
            }
          }
        } else if src !in up && Pairs(catalog)[src] in up {
          degraded, since := degraded + {src}, since[src := now];
        }
      }
      AllSame(View(), f, g, catalog, up, now);
    }

    method Cancel(id: string)
      modifies this`queued
      ensures queued == Cancelled(old(queued), id)
    {
      var i := 0;
      while i < |queued| && queued[i].id != id
        invariant i <= |queued|
        invariant Cancelled(queued, id) == queued[..i] + Cancelled(queued[i..], id)
      {
        i := i + 1;
      }
      if i < |queued| {
        queued := queued[..i] + queued[i + 1..];
      } else {
        assert queued[..i] == queued;
      }
    }

    /** `apply` */
    method Apply(r: Request, tgt: string) returns (moved: Request)
      requires tgt in catalog.endpoints
      modifies this`rerouted
      ensures moved == Repointed(r, catalog, tgt)
      ensures rerouted == Bump(old(rerouted), r.endpoint)
    {
      moved := r.(degradedFrom := Some(r.endpoint), endpoint := tgt);
      moved := moved.(ctxAtAdmission := catalog.endpoints[tgt].context);
      rerouted := rerouted[r.endpoint := (if r.endpoint in rerouted then rerouted[r.endpoint] else 0) + 1];
    }

    /** `listing` is what the scheduler enumerates of the endpoint's queue. */
    method FastFailInteractive(ep: string, up: set<string>, now: real, listing: seq<Request>)
      requires Lists(queued, ep, listing)
      modifies this
      ensures View() == FailedOver(old(View()), catalog, up, now, listing)
    {
      hide Refreshed, PlanFor, Cancelled, Repointed;
      Refresh(up, now);
      ghost var g := View();
      for i := 0 to |listing|
        invariant View() == MoveAll(g, catalog, up, listing[..i])
      {
        var r := listing[i];
        assert listing[..i + 1][..i] == listing[..i];
        var p := PlanFor(degraded, catalog, up, r);
        if p.Reroute? {
          Cancel(r.id);
          var moved := Apply(r, p.target);
          queued := queued + [moved];
        } else {
          Cancel(r.id);
          refused := Refused(refused, r, p);
          closed := closed + [Closed(r.id, FailedFast)];
        }
      }
      assert listing[..|listing|] == listing;
    }

    method Submit(r: Request, up: set<string>, now: real)
      modifies this
      ensures View() == Submitted(old(View()), catalog, up, now, r)
    {
      if r.endpoint in up {
        queued := queued + [r];
        return;
      }
      Refresh(up, now);
      var p := PlanFor(degraded, catalog, up, r);
      if p.Reroute? {
        var moved := Apply(r, p.target);
        queued := queued + [moved];
      } else if r.band != Background {
        refused := Refused(refused, r, p);
        closed := closed + [Closed(r.id, TurnedAway)];
      } else {
        queued := queued + [r];
      }
    }
  }
}
