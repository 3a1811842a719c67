/** Conservation laws of the budget ledger over whole runs. */
module BudgetRuns {
  import opened Prelude
  import opened Sums
  import opened AgentBudget

  // ------------------------------------------------------------------- rates

  /** With capacity and weight to share, every rate is its weight's share. */
  ghost predicate RatesFair(l: Ledger) {
    var total := TotalWeight(l.agents);
    l.capacity > 0.0 && total > 0.0 ==>
      forall a :: a in l.agents ==> l.agents[a].rate == Share(l.capacity, total, l.agents[a].weight)
  }

  lemma RecalculatedFair(l: Ledger)
    ensures RatesFair(Recalculated(l))
  {
    assert Weights(Recalculated(l).agents) == Weights(l.agents);
  }

  /** An update that leaves weights and rates alone keeps the rates fair. */
  lemma SameRatesFair(l: Ledger, k: Ledger)
    requires RatesFair(l) && k.capacity == l.capacity && k.agents.Keys == l.agents.Keys
    requires forall a :: a in l.agents ==>
               k.agents[a].weight == l.agents[a].weight && k.agents[a].rate == l.agents[a].rate
    ensures RatesFair(k)
  {
    assert Weights(k.agents) == Weights(l.agents);
  }

  lemma ApplyFair(l: Ledger, op: Op)
    requires RatesFair(l)
    ensures RatesFair(Apply(l, op))
  {
    hide RatesFair, Recalculated;
    match op {
      case Create(id, w, c, now) =>
        RecalculatedFair(l.(agents := l.agents[id := NewBudget(w, c, now)]));
      case Reweight(id, w, c) =>
        if id in l.agents {
          RecalculatedFair(l.(agents := l.agents[id := Reweighted(l.agents[id], w, c)]));
        }
      case Remove(id) => RecalculatedFair(l.(agents := l.agents - {id}));
      case Prune(now, ttl) =>
        RecalculatedFair(l.(agents := l.agents - StaleIds(l.agents, now, ttl)));
      case SetCapacity(c) => RecalculatedFair(l.(capacity := c));
      case Replenish(_) => SameRatesFair(l, Apply(l, op));
      case Charge(_, _, _) => SameRatesFair(l, Apply(l, op));
      case Adjust(_, _, _) => SameRatesFair(l, Apply(l, op));
    }
  }

  lemma {:induction false} RunFair(ops: seq<Op>)
    ensures RatesFair(Run(EMPTY, ops))
  {
    hide Apply;
    if ops == [] {
      assert Run(EMPTY, ops) == EMPTY;
    } else {
      RunFair(ops[..|ops| - 1]);
      ApplyFair(Run(EMPTY, ops[..|ops| - 1]), ops[|ops| - 1]);
    }
  }

  lemma ShareIsScaled(capacity: real, total: real, w: real)
    requires total != 0.0
    ensures Share(capacity, total, w) == Times(capacity / total, w)
  {}

  lemma WholeShare(capacity: real, total: real)
    requires total != 0.0
    ensures Times(capacity / total, total) == capacity
  {}

  /** After any run of public operations, whenever there is capacity and weight
      to share out, the rates add up to exactly the capacity. */
  lemma RatesSumToCapacity(ops: seq<Op>)
    ensures var l := Run(EMPTY, ops);
            l.capacity > 0.0 && TotalWeight(l.agents) > 0.0 ==> Sum(Rates(l.agents)) == l.capacity
  {
    hide Run, Share, Times;
    RunFair(ops);
    var l := Run(EMPTY, ops);
    var total := TotalWeight(l.agents);
    if l.capacity > 0.0 && total > 0.0 {
      forall a | a in l.agents
        ensures Rates(l.agents)[a] == Times(l.capacity / total, Weights(l.agents)[a])
      {
        ShareIsScaled(l.capacity, total, l.agents[a].weight);
      }
      SumScaled(Weights(l.agents), Rates(l.agents), l.capacity / total);
      WholeShare(l.capacity, total);
    }
  }

  /** No operation brings capacity back, and none evicts. */
  predicate WithoutCapacity(ops: seq<Op>) {
    forall i :: 0 <= i < |ops| ==>
      !ops[i].Remove? && !ops[i].Prune? && (ops[i].SetCapacity? ==> ops[i].slots <= 0.0)
  }

  lemma IdleStepKeepsRate(l: Ledger, op: Op, a: string)
    requires l.capacity <= 0.0 && a in l.agents
    requires !op.Remove? && !op.Prune? && (op.SetCapacity? ==> op.slots <= 0.0)
    ensures var k := Apply(l, op); k.capacity <= 0.0 && a in k.agents && k.agents[a].rate == l.agents[a].rate
  {}

  /** Once the capacity is gone, every agent keeps the rate it had, whatever is
      created, reweighted, charged or refilled, until capacity comes back: the
      rates go stale. */
  lemma {:induction false} NoCapacityKeepsRates(l: Ledger, slots: real, ops: seq<Op>, a: string)
    requires slots <= 0.0 && WithoutCapacity(ops) && a in l.agents
    ensures var k := Run(Apply(l, SetCapacity(slots)), ops);
            k.capacity <= 0.0 && a in k.agents && k.agents[a].rate == l.agents[a].rate
  {
    if ops != [] {
      var n := |ops| - 1;
      NoCapacityKeepsRates(l, slots, ops[..n], a);
      IdleStepKeepsRate(Run(Apply(l, SetCapacity(slots)), ops[..n]), ops[n], a);
    }
  }

  // ----------------------------------------------------------- replenishment

  lemma TimesSplit(r: real, t0: real, t1: real, t2: real)
    ensures r * (t1 - t0) + r * (t2 - t1) == r * (t2 - t0)
  {}

  lemma TimesSign(r: real, d: real)
    requires r >= 0.0 && d >= 0.0
    ensures r * d >= 0.0
  {}

  /** Replenishing at t1 and again at t2 is replenishing once at t2. */
  lemma ReplenishTwice(b: Budget, t1: real, t2: real)
    requires b.rate >= 0.0 && b.replenishedAt <= t1 <= t2
    ensures Replenished(Replenished(b, t1), t2) == Replenished(b, t2)
  {
    var t0 := b.replenishedAt;
    TimesSplit(b.rate, t0, t1, t2);
    TimesSign(b.rate, t1 - t0);
    TimesSign(b.rate, t2 - t1);
    TimesSign(b.rate, t2 - t0);
    var c1, c2, c := b.rate * (t1 - t0), b.rate * (t2 - t1), b.rate * (t2 - t0);
    assert c == c1 + c2 && c1 >= 0.0 && c2 >= 0.0;
    var m := Replenished(b, t1);
    if t0 < t1 && t1 < t2 {
      assert m.balance == RMin(b.cap, b.balance + c1);
      assert Replenished(m, t2).balance == RMin(b.cap, m.balance + c2);
      assert Replenished(b, t2).balance == RMin(b.cap, b.balance + c);
    }
  }

  // ------------------------------------------------------------ conservation

  /** A scheduler's day without evictions: requests are charged their estimate
      when dispatched and settled at their actual cost when they finish. */
  datatype Event =
    | Dispatch(req: nat, agent: string, estimate: real, now: real)
    | Settle(req: nat, actual: real)
    | Upkeep(op: Op)

  /** The ledger, the estimates of outstanding requests, and the actual cost of
      the settled ones per agent. */
  datatype Books = Books(ledger: Ledger, open: map<nat, (string, real)>, settled: map<string, real>)

  const NO_BOOKS := Books(EMPTY, map[], map[])

  ghost predicate Enabled(s: Books, e: Event) {
    match e
    case Dispatch(req, agent, _, _) => req !in s.open && agent in s.ledger.agents
    case Settle(req, _) => req in s.open
    case Upkeep(op) => op.Create? || op.Reweight? || op.SetCapacity? || op.Replenish?
  }

  function SettledFor(s: Books, a: string): real {
    if a in s.settled then s.settled[a] else 0.0
  }

  ghost function Step(s: Books, e: Event): Books
    requires Enabled(s, e)
  {
    match e
    case Dispatch(req, agent, est, now) =>
      s.(ledger := Apply(s.ledger, Charge(agent, est, now)), open := s.open[req := (agent, est)])
    case Settle(req, actual) =>
      var (agent, est) := s.open[req];
      Books(Apply(s.ledger, Adjust(agent, est, actual)), s.open - {req},
            s.settled[agent := SettledFor(s, agent) + actual])
    case Upkeep(op) => s.(ledger := Apply(s.ledger, op))
  }

  ghost predicate Possible(s: Books, events: seq<Event>)
    decreases |events|, 0
  {
    events == [] ||
    (Possible(s, events[..|events| - 1]) &&
     Enabled(After(s, events[..|events| - 1]), events[|events| - 1]))
  }

  ghost function After(s: Books, events: seq<Event>): Books
    requires Possible(s, events)
    decreases |events|, 1
  {
    if events == [] then s else Step(After(s, events[..|events| - 1]), events[|events| - 1])
  }

  /** The estimates of the outstanding requests of one agent. */
  ghost function OpenFor(open: map<nat, (string, real)>, a: string): map<nat, real> {
    map r | r in open && open[r].0 == a :: open[r].1
  }

  ghost predicate Balanced(s: Books, a: string) {
    a in s.ledger.agents ==>
      s.ledger.agents[a].consumed == SettledFor(s, a) + Sum(OpenFor(s.open, a))
  }

  /** Nothing is owed in the name of an agent the ledger does not know. */
  ghost predicate NoStrangers(s: Books) {
    && (forall r :: r in s.open ==> s.open[r].0 in s.ledger.agents)
    && (forall a :: a in s.settled ==> a in s.ledger.agents)
  }

  lemma RecalculatedKeeps(l: Ledger, a: string)
    requires a in l.agents
    ensures a in Recalculated(l).agents
    ensures Recalculated(l).agents[a] == l.agents[a].(rate := Recalculated(l).agents[a].rate)
  {}

  lemma RecalculatedKeys(l: Ledger)
    ensures Recalculated(l).agents.Keys == l.agents.Keys
  {}

  /** Upkeep never touches what an agent has consumed, and forgets no agent. */
  lemma UpkeepKeeps(l: Ledger, op: Op, a: string)
    requires op.Create? || op.Reweight? || op.SetCapacity? || op.Replenish?
    ensures l.agents.Keys <= Apply(l, op).agents.Keys
    ensures a in l.agents ==> Apply(l, op).agents[a].consumed == l.agents[a].consumed
    ensures a !in l.agents && a in Apply(l, op).agents ==> Apply(l, op).agents[a].consumed == 0.0
  {
    hide Recalculated;
    if op.Create? && op.id !in l.agents {
      var k := l.(agents := l.agents[op.id := NewBudget(op.weight, op.cap, op.now)]);
      RecalculatedKeys(k);
      if a in k.agents { RecalculatedKeeps(k, a); }
    } else if op.Reweight? && op.id in l.agents {
      var k := l.(agents := l.agents[op.id := Reweighted(l.agents[op.id], op.newWeight, op.newCap)]);
      RecalculatedKeys(k);
      if a in k.agents { RecalculatedKeeps(k, a); }
    } else if op.SetCapacity? {
      RecalculatedKeys(l.(capacity := op.slots));
      if a in l.agents { RecalculatedKeeps(l.(capacity := op.slots), a); }
    }
  }

  lemma DispatchBalanced(s: Books, e: Event, a: string)
    requires e.Dispatch? && Enabled(s, e) && NoStrangers(s) && Balanced(s, a)
    ensures NoStrangers(Step(s, e)) && Balanced(Step(s, e), a)
  {
    var t := Step(s, e);
    if e.agent == a {
      SumPut(OpenFor(s.open, a), e.req, e.estimate);
      assert OpenFor(t.open, a) == OpenFor(s.open, a)[e.req := e.estimate];
    } else {
      assert OpenFor(t.open, a) == OpenFor(s.open, a);
    }
  }

  lemma SettleBalanced(s: Books, e: Event, a: string)
    requires e.Settle? && Enabled(s, e) && NoStrangers(s) && Balanced(s, a)
    ensures NoStrangers(Step(s, e)) && Balanced(Step(s, e), a)
  {
    var t := Step(s, e);
    if s.open[e.req].0 == a {
      SumPick(OpenFor(s.open, a), e.req);
      assert OpenFor(t.open, a) == OpenFor(s.open, a) - {e.req};
    } else {
      assert OpenFor(t.open, a) == OpenFor(s.open, a);
    }
  }

  lemma StepBalanced(s: Books, e: Event, a: string)
    requires Enabled(s, e) && NoStrangers(s) && Balanced(s, a)
    ensures NoStrangers(Step(s, e)) && Balanced(Step(s, e), a)
  {
    match e {
      case Dispatch(_, _, _, _) => DispatchBalanced(s, e, a);
      case Settle(_, _) => SettleBalanced(s, e, a);
      case Upkeep(op) =>
        hide Apply;
        UpkeepKeeps(s.ledger, op, a);
        if a !in s.ledger.agents { assert OpenFor(s.open, a) == map[]; }
    }
  }

  lemma {:induction false} RunBalanced(events: seq<Event>, a: string)
    requires Possible(NO_BOOKS, events)
    ensures NoStrangers(After(NO_BOOKS, events)) && Balanced(After(NO_BOOKS, events), a)
  {
    hide Step, NoStrangers, Balanced;
    if events == [] {
      EmptyBalanced(a);
    } else {
      RunBalanced(events[..|events| - 1], a);
      StepBalanced(After(NO_BOOKS, events[..|events| - 1]), events[|events| - 1], a);
    }
  }

  lemma EmptyBalanced(a: string)
    ensures NoStrangers(NO_BOOKS) && Balanced(NO_BOOKS, a)
  {}

  /** Over any run without eviction, what an agent has consumed is the actual
      cost of its settled requests plus the estimates of its outstanding ones. */
  lemma ConsumedIsAccountedFor(events: seq<Event>, a: string)
    requires Possible(NO_BOOKS, events)
    ensures var s := After(NO_BOOKS, events);
            a in s.ledger.agents ==>
              s.ledger.agents[a].consumed == SettledFor(s, a) + Sum(OpenFor(s.open, a))
  {
    RunBalanced(events, a);
  }

  /** Balance plus consumption: what an agent was ever given. */
  function Worth(b: Budget): real { b.balance + b.consumed }

  ghost function WorthOf(s: Books, a: string): real {
    if a in s.ledger.agents then Worth(s.ledger.agents[a]) else 0.0
  }

  /** The capped credit an event gives an agent. */
  ghost function CreditIn(s: Books, e: Event, a: string): real {
    if e.Upkeep? && e.op.Replenish? && a in s.ledger.agents
    then Credit(s.ledger.agents[a], e.op.now) else 0.0
  }

  ghost function CreditOver(s: Books, events: seq<Event>, a: string): real
    requires Possible(s, events)
  {
    if events == [] then 0.0
    else
      var n := |events| - 1;
      CreditOver(s, events[..n], a) + CreditIn(After(s, events[..n]), events[n], a)
  }

  lemma StepWorth(s: Books, e: Event, a: string)
    requires Enabled(s, e)
    ensures WorthOf(Step(s, e), a) == WorthOf(s, a) + CreditIn(s, e, a)
  {
    if e.Upkeep? && !e.op.Replenish? {
      UpkeepWorth(s.ledger, e.op, a);
    }
  }

  lemma UpkeepWorth(l: Ledger, op: Op, a: string)
    requires op.Create? || op.Reweight? || op.SetCapacity?
    ensures var k := Apply(l, op);
            (if a in k.agents then Worth(k.agents[a]) else 0.0)
            == (if a in l.agents then Worth(l.agents[a]) else 0.0)
  {
    hide Recalculated;
    if op.Create? && op.id !in l.agents {
      var k := l.(agents := l.agents[op.id := NewBudget(op.weight, op.cap, op.now)]);
      RecalculatedKeys(k);
      if a in k.agents { RecalculatedKeeps(k, a); }
    } else if op.Reweight? && op.id in l.agents {
      var k := l.(agents := l.agents[op.id := Reweighted(l.agents[op.id], op.newWeight, op.newCap)]);
      RecalculatedKeys(k);
      if a in k.agents { RecalculatedKeeps(k, a); }
    } else if op.SetCapacity? {
      RecalculatedKeys(l.(capacity := op.slots));
      if a in l.agents { RecalculatedKeeps(l.(capacity := op.slots), a); }
    }
  }

  /** Over any run without eviction, charges, settlements and reweighting create
      and destroy nothing: balance plus consumption grows by exactly the capped
      credit. */
  lemma {:induction false} WorthIsCredit(events: seq<Event>, a: string)
    requires Possible(NO_BOOKS, events)
    ensures WorthOf(After(NO_BOOKS, events), a) == CreditOver(NO_BOOKS, events, a)
  {
    hide Step, WorthOf, CreditIn;
    if events == [] {
      EmptyWorth(a);
    } else {
      var n := |events| - 1;
      WorthIsCredit(events[..n], a);
      StepWorth(After(NO_BOOKS, events[..n]), events[n], a);
    }
  }

  lemma EmptyWorth(a: string)
    ensures WorthOf(NO_BOOKS, a) == 0.0
  {}

  // ------------------------------------------------------------------ pruning

  /** A pruned agent that returns starts over: nothing but the weight and the cap
      it is recreated with carries over.  Its balance is the old one exactly when
      that was zero, and with a non-negative idle time the recreated budget is
      never the old one as a whole. */
  lemma PrunedStartsOver(l: Ledger, id: string, now: real, ttl: real)
    requires id in l.agents && Stale(l.agents[id], now, ttl)
    ensures var b := l.agents[id];
            var k := Apply(Apply(l, Prune(now, ttl)), Create(id, b.weight, b.cap, now));
            && id in k.agents
            && k.agents[id].(rate := 0.0) == NewBudget(b.weight, b.cap, now)
            && (k.agents[id].balance == b.balance <==> b.balance == 0.0)
            && (ttl >= 0.0 ==> k.agents[id] != b)
  {
    hide Recalculated;
    var b := l.agents[id];
    var stale := StaleIds(l.agents, now, ttl);
    assert id in stale;
    var l1 := l.(agents := l.agents - stale);
    RecalculatedKeys(l1);
    var l2 := Recalculated(l1);
    var l3 := l2.(agents := l2.agents[id := NewBudget(b.weight, b.cap, now)]);
    RecalculatedKeys(l3);
    RecalculatedOnlyRates(l3, id);
  }

  lemma RecalculatedOnlyRates(l: Ledger, a: string)
    requires a in l.agents
    ensures a in Recalculated(l).agents
    ensures Recalculated(l).agents[a].(rate := 0.0) == l.agents[a].(rate := 0.0)
  {}

  // ---------------------------------------------------- the negative-since mark

  predicate NonNegativeCosts(ops: seq<Op>) {
    forall i :: 0 <= i < |ops| && ops[i].Charge? ==> ops[i].cost >= 0.0
  }

  /** The mark is set exactly while the balance is negative. */
  predicate MarkExact(b: Budget) {
    b.negativeSince != 0.0 <==> b.balance < 0.0
  }

  /** When an operation keeps an exact mark exact.  A charge must not leave a
      balance at or above zero that was below it, and must not cross zero at
      clock zero; a settlement must not take more than the balance; a refill must
      not cut a balance to below zero. */
  predicate KeepsExact(b: Budget, op: Op, id: string) {
    match op
    case Charge(x, cost, now) =>
      x == id ==> if b.balance - cost < 0.0 then b.balance < 0.0 || now != 0.0 else b.balance >= 0.0
    case Adjust(x, estimated, actual) =>
      x == id && b.balance >= 0.0 ==> actual - estimated <= b.balance
    case Replenish(now) =>
      b.balance >= 0.0 ==> b.balance + Credit(b, now) >= 0.0
    case _ => true
  }

  /** The operation touches one agent through this update. */
  function Touched(b: Budget, op: Op, id: string): Budget {
    match op
    case Charge(x, cost, now) => if x == id then Charged(b, cost, now) else b
    case Adjust(x, estimated, actual) => if x == id then Adjusted(b, estimated, actual) else b
    case Replenish(now) => Replenished(b, now)
    case _ => b
  }

  lemma TouchedExact(b: Budget, op: Op, id: string)
    requires MarkExact(b)
    ensures MarkExact(Touched(b, op, id)) <==> KeepsExact(b, op, id)
  {}

  /** What an operation leaves of one agent, as far as balance and mark go. */
  lemma StepTouches(l: Ledger, op: Op, a: string)
    requires a in Apply(l, op).agents
    ensures var k := Apply(l, op);
            if a in l.agents then
              var b := Touched(l.agents[a], op, a);
              k.agents[a].balance == b.balance && k.agents[a].negativeSince == b.negativeSince
            else k.agents[a].balance == 0.0 && k.agents[a].negativeSince == 0.0
  {
    hide Recalculated;
    match op {
      case Create(id, w, c, now) =>
        if id !in l.agents {
          var k := l.(agents := l.agents[id := NewBudget(w, c, now)]);
          RecalculatedKeys(k);
          RecalculatedOnlyRates(k, a);
        }
      case Reweight(id, w, c) =>
        if id in l.agents {
          var k := l.(agents := l.agents[id := Reweighted(l.agents[id], w, c)]);
          RecalculatedKeys(k);
          RecalculatedOnlyRates(k, a);
        }
      case Remove(id) =>
        var k := l.(agents := l.agents - {id});
        RecalculatedKeys(k);
        RecalculatedOnlyRates(k, a);
      case Prune(now, ttl) =>
        var k := l.(agents := l.agents - StaleIds(l.agents, now, ttl));
        RecalculatedKeys(k);
        if StaleIds(l.agents, now, ttl) != {} { RecalculatedOnlyRates(k, a); }
      case SetCapacity(c) =>
        RecalculatedKeys(l.(capacity := c));
        RecalculatedOnlyRates(l.(capacity := c), a);
      case Replenish(now) =>
      case Charge(id, cost, now) =>
      case Adjust(id, est, act) =>
    }
  }

  /** Over any run with non-negative costs, an agent that is marked as negative is
      negative. */
  lemma {:induction false} MarkedIsNegative(ops: seq<Op>, a: string)
    requires NonNegativeCosts(ops)
    ensures var l := Run(EMPTY, ops);
            a in l.agents && l.agents[a].negativeSince != 0.0 ==> l.agents[a].balance < 0.0
  {
    hide Apply;
    if ops != [] {
      var n := |ops| - 1;
      forall i | 0 <= i < n && ops[..n][i].Charge? ensures ops[..n][i].cost >= 0.0 { assert ops[i].Charge?; }
      MarkedIsNegative(ops[..n], a);
      var l := Run(EMPTY, ops[..n]);
      if a in Apply(l, ops[n]).agents { StepTouches(l, ops[n], a); }
    }
  }

  ghost predicate ExactIn(l: Ledger, a: string) {
    a in l.agents ==> MarkExact(l.agents[a])
  }

  ghost predicate KeepsIn(l: Ledger, op: Op, a: string) {
    a in l.agents && a in Apply(l, op).agents ==> KeepsExact(l.agents[a], op, a)
  }

  /** One operation, whichever it is: an exact mark stays exact if and only if the
      operation keeps it. */
  lemma StepMarkExact(l: Ledger, op: Op, a: string)
    requires ExactIn(l, a)
    ensures ExactIn(Apply(l, op), a) <==> KeepsIn(l, op, a)
  {
    hide Apply, KeepsExact, Touched;
    var k := Apply(l, op);
    if a in k.agents {
      StepTouches(l, op, a);
      if a in l.agents {
        TouchedExact(l.agents[a], op, a);
      }
    }
  }

  /** Exact after every operation of the run. */
  ghost predicate AlwaysExact(ops: seq<Op>, a: string) {
    ExactIn(Run(EMPTY, ops), a) && (ops == [] || AlwaysExact(ops[..|ops| - 1], a))
  }

  /** Every operation of the run keeps an exact mark. */
  ghost predicate AllKeep(ops: seq<Op>, a: string) {
    ops == [] ||
    (AllKeep(ops[..|ops| - 1], a) && KeepsIn(Run(EMPTY, ops[..|ops| - 1]), ops[|ops| - 1], a))
  }

  /** Over a whole run: the mark of an agent is exact at every moment if and only
      if every operation of the run keeps it. */
  lemma {:induction false} MarkExactly(ops: seq<Op>, a: string)
    ensures AlwaysExact(ops, a) <==> AllKeep(ops, a)
  {
    hide Apply, ExactIn, KeepsIn;
    if ops == [] {
      EmptyExact(a);
    } else {
      var n := |ops| - 1;
      MarkExactly(ops[..n], a);
      if AlwaysExact(ops[..n], a) {
        StepMarkExact(Run(EMPTY, ops[..n]), ops[n], a);
      }
    }
  }

  lemma EmptyExact(a: string)
    ensures ExactIn(Run(EMPTY, []), a)
  {}

  /** The three ways in which a balance ends negative and unmarked: an
      underestimate settled past the balance, a charge at clock zero, and a refill
      under a negative cap. */
  lemma NegativeUnmarked()
    ensures var b := NewBudget(1.0, 60.0, 5.0);
            var c := Adjusted(b, 0.0, 1.0);
            MarkExact(b) && c.balance < 0.0 && c.negativeSince == 0.0
    ensures var c := Charged(NewBudget(1.0, 60.0, 0.0), 1.0, 0.0);
            c.balance < 0.0 && c.negativeSince == 0.0
    ensures var c := Replenished(NewBudget(1.0, -1.0, 5.0), 6.0);
            c.balance < 0.0 && c.negativeSince == 0.0
  {}
}
