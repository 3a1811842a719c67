/** Bounded bypass: the starvation escape hatch of `pick_agent`, driven by the
    queue of one priority band as the scheduler drives it.  Each pick sees the
    wait of every backlogged agent's oldest request and removes the picked
    agent's oldest request.  Balances may be anything at every pick. */
module Bypass {
  import opened Prelude
  import opened Sums
  import opened AgentBudget
  import opened Fairness

  datatype Request = Request(id: nat, arrived: real)

  /** Per agent, oldest first; only backlogged agents are present. */
  type Queues = map<string, seq<Request>>

  ghost predicate Sorted(q: seq<Request>) {
    forall i, j :: 0 <= i < j < |q| ==> q[i].arrived <= q[j].arrived
  }

  ghost predicate ArrivedBy(q: seq<Request>, clock: real) {
    forall i :: 0 <= i < |q| ==> q[i].arrived <= clock
  }

  /** Every queue is non-empty and in arrival order, and nobody arrived after
      `clock`. */
  ghost predicate Valid(qs: Queues, clock: real) {
    forall a :: a in qs ==> qs[a] != [] && Sorted(qs[a]) && ArrivedBy(qs[a], clock)
  }

  ghost predicate Queued(qs: Queues, r: Request) {
    exists a :: a in qs && r in qs[a]
  }

  /** `now - head.enqueued_at` for every backlogged agent. */
  function Waits(qs: Queues, now: real): map<string, real>
    requires forall a :: a in qs ==> qs[a] != []
  {
    map a | a in qs :: now - qs[a][0].arrived
  }

  function PopHead(qs: Queues, a: string): Queues
    requires a in qs && qs[a] != []
  {
    if |qs[a]| == 1 then qs - {a} else qs[a := qs[a][1..]]
  }

  function Append(qs: Queues, a: string, r: Request): Queues {
    qs[a := (if a in qs then qs[a] else []) + [r]]
  }

  // ---------------------------------------------------------------- counting

  /** How many of a queue arrived no later than `t`. */
  function Early(q: seq<Request>, t: real): nat {
    if q == [] then 0 else (if q[0].arrived <= t then 1 else 0) + Early(q[1..], t)
  }

  ghost function EarlyMap(qs: Queues, t: real): map<string, nat> {
    map a | a in qs :: Early(qs[a], t)
  }

  /** How many queued requests arrived no later than `t`. */
  ghost function Ahead(qs: Queues, t: real): nat {
    Count(EarlyMap(qs, t))
  }

  lemma {:induction false} EarlyAppend(q: seq<Request>, r: Request, t: real)
    ensures Early(q + [r], t) == Early(q, t) + (if r.arrived <= t then 1 else 0)
  {
    if q == [] {
      assert q + [r] == [r];
    } else {
      assert (q + [r])[1..] == q[1..] + [r];
      EarlyAppend(q[1..], r, t);
    }
  }

  lemma {:induction false} EarlyPositive(q: seq<Request>, r: Request)
    requires r in q
    ensures Early(q, r.arrived) >= 1
  {
    if q[0] != r {
      assert r in q[1..];
      EarlyPositive(q[1..], r);
    }
  }

  lemma PopCounts(qs: Queues, a: string, t: real)
    requires a in qs && qs[a] != [] && qs[a][0].arrived <= t
    ensures Ahead(PopHead(qs, a), t) == Ahead(qs, t) - 1
  {
    var m := EarlyMap(qs, t);
    var q := PopHead(qs, a);
    assert Early(qs[a], t) == 1 + Early(qs[a][1..], t);
    if |qs[a]| == 1 {
      assert qs[a][1..] == [];
      assert EarlyMap(q, t) == m - {a};
      CountPick(m, a);
    } else {
      assert EarlyMap(q, t) == m[a := Early(qs[a][1..], t)];
      CountPut(m, a, Early(qs[a][1..], t));
    }
  }

  lemma AppendCounts(qs: Queues, a: string, r: Request, t: real)
    requires r.arrived > t
    ensures Ahead(Append(qs, a, r), t) == Ahead(qs, t)
  {
    var m := EarlyMap(qs, t);
    var before := if a in qs then qs[a] else [];
    EarlyAppend(before, r, t);
    assert EarlyMap(Append(qs, a, r), t) == m[a := Early(before, t)];
    CountPut(m, a, Early(before, t));
  }

  lemma QueuedCounts(qs: Queues, r: Request)
    requires Queued(qs, r)
    ensures Ahead(qs, r.arrived) >= 1
  {
    var a :| a in qs && r in qs[a];
    EarlyPositive(qs[a], r);
    CountPick(EarlyMap(qs, r.arrived), a);
  }

  // -------------------------------------------------------------------- runs

  datatype Event =
    | Arrive(agent: string, req: Request)
    | PickOne(agents: map<string, Budget>, cands: seq<string>, now: real)

  function Time(e: Event): real {
    if e.Arrive? then e.req.arrived else e.now
  }

  /** Arrivals are stamped with the time; a pick lists the backlogged agents, in
      any order. */
  ghost predicate Enabled(qs: Queues, clock: real, e: Event) {
    && Time(e) >= clock
    && (e.PickOne? ==> forall a :: a in e.cands <==> a in qs)
  }

  ghost function Step(qs: Queues, timeout: real, e: Event): Queues
    requires forall a :: a in qs ==> qs[a] != []
    requires e.PickOne? ==> forall a :: a in e.cands <==> a in qs
  {
    match e
    case Arrive(a, r) => Append(qs, a, r)
    case PickOne(agents, cands, now) =>
      var r := Pick(agents, cands, Waits(qs, now), timeout);
      if r.Some? && r.value in qs then PopHead(qs, r.value) else qs
  }

  lemma StepValid(qs: Queues, clock: real, timeout: real, e: Event)
    requires Valid(qs, clock) && Enabled(qs, clock, e)
    ensures Valid(Step(qs, timeout, e), Time(e))
  {
    hide Pick;
    var q := Step(qs, timeout, e);
    forall a | a in q
      ensures q[a] != [] && Sorted(q[a]) && ArrivedBy(q[a], Time(e))
    {
      if a in qs { assert Sorted(qs[a]) && ArrivedBy(qs[a], clock); }
    }
  }

  /** A pick while some request `r` is overdue removes a request that arrived no
      later than `r`. */
  lemma PickServesTheOld(qs: Queues, clock: real, timeout: real, e: Event, r: Request)
    requires Valid(qs, clock) && Enabled(qs, clock, e) && e.PickOne?
    requires Queued(qs, r) && e.now - r.arrived >= timeout
    ensures var p := Pick(e.agents, e.cands, Waits(qs, e.now), timeout);
            && p.Some? && p.value in qs && qs[p.value][0].arrived <= r.arrived
            && Step(qs, timeout, e) == PopHead(qs, p.value)
  {
    hide Pick;
    var a :| a in qs && r in qs[a];
    var waits := Waits(qs, e.now);
    var i :| 0 <= i < |qs[a]| && qs[a][i] == r;
    assert Sorted(qs[a]) && qs[a][0].arrived <= r.arrived;
    assert waits[a] >= timeout;
    OverdueIsServed(e.agents, e.cands, waits, timeout, a);
  }

  /** That count falls by exactly one per pick, and not at all otherwise. */
  lemma StepCounts(qs: Queues, clock: real, timeout: real, e: Event, r: Request)
    requires Valid(qs, clock) && Enabled(qs, clock, e) && timeout > 0.0
    requires Queued(qs, r) && clock - r.arrived >= timeout
    ensures Ahead(Step(qs, timeout, e), r.arrived)
            == Ahead(qs, r.arrived) - (if e.PickOne? then 1 else 0)
  {
    hide Pick, Ahead;
    if e.PickOne? {
      PickServesTheOld(qs, clock, timeout, e, r);
      PopCounts(qs, Pick(e.agents, e.cands, Waits(qs, e.now), timeout).value, r.arrived);
    } else {
      AppendCounts(qs, e.agent, e.req, r.arrived);
    }
  }

  /** Nothing puts a request back once it has been served. */
  lemma NotReturned(qs: Queues, clock: real, timeout: real, e: Event, r: Request)
    requires Valid(qs, clock) && Enabled(qs, clock, e) && r.arrived < clock
    requires Queued(Step(qs, timeout, e), r)
    ensures Queued(qs, r)
  {
    hide Pick;
    var q := Step(qs, timeout, e);
    var a :| a in q && r in q[a];
    assert e.Arrive? ==> e.req.arrived > r.arrived;
    assert a in qs && r in qs[a];
  }

  ghost predicate Possible(qs: Queues, clock: real, timeout: real, events: seq<Event>)
    decreases |events|
  {
    events == [] ||
    (&& Valid(qs, clock) && Enabled(qs, clock, events[0])
     && Possible(Step(qs, timeout, events[0]), Time(events[0]), timeout, events[1..]))
  }

  ghost function After(qs: Queues, clock: real, timeout: real, events: seq<Event>): Queues
    requires Possible(qs, clock, timeout, events)
    decreases |events|
  {
    if events == [] then qs
    else After(Step(qs, timeout, events[0]), Time(events[0]), timeout, events[1..])
  }

  function Picks(events: seq<Event>): nat {
    if events == [] then 0 else (if events[0].PickOne? then 1 else 0) + Picks(events[1..])
  }

  lemma {:induction false} StaysServed(qs: Queues, clock: real, timeout: real, events: seq<Event>, r: Request)
    requires Possible(qs, clock, timeout, events) && r.arrived < clock && !Queued(qs, r)
    ensures !Queued(After(qs, clock, timeout, events), r)
    decreases |events|
  {
    hide Queued, Step;
    if events != [] {
      var q := Step(qs, timeout, events[0]);
      if Queued(q, r) { NotReturned(qs, clock, timeout, events[0], r); }
      StaysServed(q, Time(events[0]), timeout, events[1..], r);
    }
  }

  /** Bounded bypass.  From the moment a queued request has waited past the
      timeout, let N be the number of queued requests that arrived no later.
      However arrivals and picks interleave and whatever the balances are: while
      the request is still queued, exactly N minus the number of picks remain
      ahead of it or equal to it; so after N picks it has been served. */
  lemma {:induction false} BoundedBypass(qs: Queues, clock: real, timeout: real, events: seq<Event>, r: Request)
    requires Possible(qs, clock, timeout, events) && Valid(qs, clock)
    requires timeout > 0.0 && Queued(qs, r) && clock - r.arrived >= timeout
    ensures var q := After(qs, clock, timeout, events);
            && (Queued(q, r) ==> Ahead(q, r.arrived) == Ahead(qs, r.arrived) - Picks(events))
            && (Picks(events) >= Ahead(qs, r.arrived) ==> !Queued(q, r))
    decreases |events|
  {
    hide Queued, Step, Ahead;
    QueuedCounts(qs, r);
    if events != [] {
      var e := events[0];
      var q := Step(qs, timeout, e);
      var end := After(qs, clock, timeout, events);
      StepValid(qs, clock, timeout, e);
      StepCounts(qs, clock, timeout, e, r);
      ClockMoves(qs, clock, e);
      if Queued(q, r) {
        BoundedBypass(q, Time(e), timeout, events[1..], r);
      } else {
        StaysServed(q, Time(e), timeout, events[1..], r);
      }
    }
  }

  lemma ClockMoves(qs: Queues, clock: real, e: Event)
    requires Enabled(qs, clock, e)
    ensures Time(e) >= clock
  {}
}
