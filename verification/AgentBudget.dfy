/** The deficit-round-robin ledger and picker of `agent_budget.py`.  Balances
    are in slot-seconds.  Time is a parameter; floats are `real`. */
module AgentBudget {
  import opened Prelude
  import opened Sums

  // ------------------------------------------------------------- one budget

  datatype Budget = Budget(
    weight: real, rate: real, cap: real, balance: real, consumed: real, requests: nat,
    replenishedAt: real, activeAt: real, negativeSince: real)

  /** A budget as `get_or_create` makes it, before rates are recalculated. */
  function NewBudget(weight: real, cap: real, now: real): Budget {
    Budget(weight, 0.0, cap, 0.0, 0.0, 0, now, now, 0.0)
  }

  function Charged(b: Budget, cost: real, now: real): Budget {
    var balance := b.balance - cost;
    b.(balance := balance, consumed := b.consumed + cost, requests := b.requests + 1,
       activeAt := now,
       negativeSince := if balance < 0.0 && b.negativeSince == 0.0 then now else b.negativeSince)
  }

  function Refunded(b: Budget, delta: real): Budget {
    var balance := b.balance + delta;
    b.(balance := balance, consumed := b.consumed - delta,
       negativeSince := if balance >= 0.0 then 0.0 else b.negativeSince)
  }

  function Adjusted(b: Budget, estimated: real, actual: real): Budget {
    var delta := estimated - actual;
    if delta > 0.0 then Refunded(b, delta)
    else b.(balance := b.balance + delta, consumed := b.consumed - delta)
  }

  /** What one replenishment adds: the accrued credit, cut off at the cap.  It is
      negative for a balance that a refund or a lower cap left above the cap. */
  function Credit(b: Budget, now: real): real {
    if now <= b.replenishedAt then 0.0
    else RMin(b.rate * (now - b.replenishedAt), b.cap - b.balance)
  }

  function Replenished(b: Budget, now: real): Budget {
    if now <= b.replenishedAt then b.(replenishedAt := now)
    else
      var balance := b.balance + Credit(b, now);
      b.(balance := balance, replenishedAt := now,
         negativeSince := if balance >= 0.0 then 0.0 else b.negativeSince)
  }

  class AgentBudget {
    var weight: real
    var rate: real
    var cap: real
    var balance: real
    var consumed: real
    var requests: nat
    var replenishedAt: real
    var activeAt: real
    var negativeSince: real

    ghost function View(): Budget reads this {
      Budget(weight, rate, cap, balance, consumed, requests, replenishedAt, activeAt, negativeSince)
    }

    constructor (weight: real, cap: real, now: real)
      ensures View() == NewBudget(weight, cap, now)
    {
      this.weight, this.cap := weight, cap;
      rate, balance, consumed, requests := 0.0, 0.0, 0.0, 0;
      replenishedAt, activeAt, negativeSince := now, now, 0.0;
    }

    method Charge(cost: real, now: real)
      modifies this
      ensures View() == Charged(old(View()), cost, now)
    {
      balance := balance - cost;
      consumed := consumed + cost;
      requests := requests + 1;
      activeAt := now;
      if balance < 0.0 && negativeSince == 0.0 {
        negativeSince := now;
      }
    }

    method Refund(delta: real)
      modifies this
      ensures View() == Refunded(old(View()), delta)
    {
      balance := balance + delta;
      consumed := consumed - delta;
      if balance >= 0.0 {
        negativeSince := 0.0;
      }
    }

    /** One agent's share of `BudgetManager.replenish`. */
    method Replenish(now: real)
      modifies this
      ensures View() == Replenished(old(View()), now)
    {
      var elapsed := now - replenishedAt;
      if elapsed <= 0.0 {
        replenishedAt := now;
        return;
      }
      var credit := rate * elapsed;
      assert credit == rate * (now - replenishedAt);
      assert Credit(View(), now) == RMin(credit, cap - balance);
      balance := RMin(cap, balance + credit);
      assert balance == old(balance) + Credit(old(View()), now);
      replenishedAt := now;
      if balance >= 0.0 {
        negativeSince := 0.0;
      }
    }
  }

  // ------------------------------------------------------------- the ledger

  datatype Ledger = Ledger(agents: map<string, Budget>, capacity: real)

  const EMPTY := Ledger(map[], 0.0)

  ghost function Weights(agents: map<string, Budget>): map<string, real> {
    map a | a in agents :: agents[a].weight
  }

  ghost function Rates(agents: map<string, Budget>): map<string, real> {
    map a | a in agents :: agents[a].rate
  }

  ghost function TotalWeight(agents: map<string, Budget>): real {
    Sum(Weights(agents))
  }

  /** The rate an agent should have: its weight's share of the capacity. */
  function Share(capacity: real, total: real, weight: real): real
    requires total != 0.0
  {
    capacity * (weight / total)
  }

  function Rerated(agents: map<string, Budget>, capacity: real, total: real): map<string, Budget>
    requires total != 0.0
  {
    map a | a in agents :: agents[a].(rate := Share(capacity, total, agents[a].weight))
  }

  /** `_recalculate_rates` */
  ghost function Recalculated(l: Ledger): Ledger {
    var total := TotalWeight(l.agents);
    if l.capacity <= 0.0 || total <= 0.0 then l
    else l.(agents := Rerated(l.agents, l.capacity, total))
  }

  datatype Op =
    | Create(id: string, weight: real, cap: real, now: real)
    | Reweight(id: string, newWeight: Option<real>, newCap: Option<real>)
    | Remove(id: string)
    | Prune(now: real, ttl: real)
    | SetCapacity(slots: real)
    | Replenish(now: real)
    | Charge(id: string, cost: real, now: real)
    | Adjust(id: string, estimated: real, actual: real)

  function Reweighted(b: Budget, w: Option<real>, c: Option<real>): Budget {
    b.(weight := w.GetOr(b.weight), cap := c.GetOr(b.cap))
  }

  predicate Stale(b: Budget, now: real, ttl: real) {
    b.activeAt != 0.0 && now - b.activeAt > ttl
  }

  function StaleIds(agents: map<string, Budget>, now: real, ttl: real): set<string> {
    set a | a in agents && Stale(agents[a], now, ttl)
  }

  /** One public operation of the manager. */
  ghost function Apply(l: Ledger, op: Op): Ledger {
    match op
    case Create(id, w, c, now) =>
      if id in l.agents then l
      else Recalculated(l.(agents := l.agents[id := NewBudget(w, c, now)]))
    case Reweight(id, w, c) =>
      if id !in l.agents then l
      else Recalculated(l.(agents := l.agents[id := Reweighted(l.agents[id], w, c)]))
    case Remove(id) => Recalculated(l.(agents := l.agents - {id}))
    case Prune(now, ttl) =>
      var stale := StaleIds(l.agents, now, ttl);
      if stale == {} then l else Recalculated(l.(agents := l.agents - stale))
    case SetCapacity(c) => Recalculated(l.(capacity := c))
    case Replenish(now) => l.(agents := map a | a in l.agents :: Replenished(l.agents[a], now))
    case Charge(id, cost, now) =>
      if id in l.agents then l.(agents := l.agents[id := Charged(l.agents[id], cost, now)]) else l
    case Adjust(id, est, act) =>
      if id in l.agents then l.(agents := l.agents[id := Adjusted(l.agents[id], est, act)]) else l
  }

  ghost function Run(l: Ledger, ops: seq<Op>): Ledger {
    if ops == [] then l else Apply(Run(l, ops[..|ops| - 1]), ops[|ops| - 1])
  }

  // -------------------------------------------------------------- the picker

  function Score(b: Budget): real {
    if b.weight > 0.0 then b.balance / b.weight else b.balance
  }

  function WaitOf(waits: map<string, real>, a: string): real {
    if a in waits then waits[a] else 0.0
  }

  function Overdue(cands: seq<string>, waits: map<string, real>, timeout: real): seq<string> {
    if cands == [] then []
    else
      var n := |cands| - 1;
      Overdue(cands[..n], waits, timeout) +
      (if WaitOf(waits, cands[n]) >= timeout then [cands[n]] else [])
  }

  /** The first candidate with the longest wait. */
  function Longest(cands: seq<string>, waits: map<string, real>): string
    requires cands != []
  {
    var n := |cands| - 1;
    if n == 0 then cands[0]
    else
      var best := Longest(cands[..n], waits);
      if WaitOf(waits, cands[n]) > WaitOf(waits, best) then cands[n] else best
  }

  /** The first known candidate with the highest normalized balance. */
  function Richest(agents: map<string, Budget>, cands: seq<string>): (r: Option<string>)
    ensures r.Some? ==> r.value in agents
  {
    if cands == [] then None
    else
      var n := |cands| - 1;
      var best := Richest(agents, cands[..n]);
      if cands[n] !in agents then best
      else if best.None? || Score(agents[cands[n]]) > Score(agents[best.value]) then Some(cands[n])
      else best
  }

  function Pick(agents: map<string, Budget>, cands: seq<string>, waits: map<string, real>,
                timeout: real): Option<string>
  {
    if cands == [] then None
    else
      var overdue := if waits == map[] then [] else Overdue(cands, waits, timeout);
      if overdue != [] then Some(Longest(overdue, waits)) else Richest(agents, cands)
  }

  // ------------------------------------------------------------- the manager

  class BudgetManager {
    var agents: map<string, AgentBudget>
    var timeout: real
    var capacity: real
    /** Last observed head-of-queue wait per agent, and when it was seen. */
    var lastWaits: map<string, (real, real)>

    /** No two names share a budget. */
    ghost predicate Valid()
      reads this
    {
      forall a, b :: a in agents && b in agents && a != b ==> agents[a] != agents[b]
    }

    ghost function Budgets(): map<string, Budget>
      reads this, agents.Values
    {
      map a | a in agents :: agents[a].View()
    }

    ghost function View(): Ledger
      reads this, agents.Values
    {
      Ledger(Budgets(), capacity)
    }

    constructor (timeout: real)
      ensures Valid() && View() == EMPTY && this.timeout == timeout && lastWaits == map[]
    {
      this.timeout := timeout;
      agents, capacity, lastWaits := map[], 0.0, map[];
    }

    /** `sum(b.weight for b in agents)` */
    method SumWeights() returns (total: real)
      requires Valid()
      ensures total == TotalWeight(Budgets())
    {
      total := 0.0;
      var todo := agents.Keys;
      ghost var w := Weights(Budgets());
      ghost var rest := w;
      while todo != {}
        invariant todo <= agents.Keys && rest.Keys == todo
        invariant forall a :: a in rest ==> rest[a] == agents[a].weight
        invariant total + Sum(rest) == Sum(w)
        decreases todo
      {
        var a :| a in todo;
        SumPick(rest, a);
        todo, rest := todo - {a}, rest - {a};
        total := total + agents[a].weight;
      }
    }

    method RecalculateRates()
      requires Valid()
      modifies agents.Values
      ensures View() == Recalculated(old(View()))
    {
      if capacity <= 0.0 {
        return;
      }
      var total := SumWeights();
      if total <= 0.0 {
        return;
      }
      var todo := agents.Keys;
      ghost var before := Budgets();
      while todo != {}
        invariant todo <= agents.Keys
        invariant forall a :: a in agents ==>
                    agents[a].View() == if a in todo then before[a]
                      else before[a].(rate := Share(capacity, total, before[a].weight))
        decreases todo
      {
        var a :| a in todo;
        agents[a].rate := Share(capacity, total, agents[a].weight);
        todo := todo - {a};
      }
      assert Budgets() == Rerated(before, capacity, total);
    }

    method GetOrCreate(id: string, weight: real, cap: real, now: real) returns (b: AgentBudget)
      requires Valid()
      modifies this, agents.Values
      ensures Valid() && View() == Apply(old(View()), Create(id, weight, cap, now))
      ensures id in agents && b == agents[id]
    {
      if id !in agents {
        b := new AgentBudget(weight, cap, now);
        ghost var before := Budgets();
        agents := agents[id := b];
        assert Budgets() == before[id := NewBudget(weight, cap, now)];
        RecalculateRates();
      }
      b := agents[id];
    }

    /** Changes the rate, never the balance. */
    method Reweigh(id: string, weight: Option<real>, cap: Option<real>) returns (known: bool)
      requires Valid()
      modifies agents.Values
      ensures Valid() && View() == Apply(old(View()), Reweight(id, weight, cap))
      ensures known == (id in agents)
    {
      known := id in agents;
      if !known {
        return;
      }
      ghost var before := Budgets();
      var b := agents[id];
      if weight.Some? { b.weight := weight.value; }
      if cap.Some? { b.cap := cap.value; }
      assert Budgets() == before[id := Reweighted(before[id], weight, cap)];
      RecalculateRates();
    }

    method RemoveAgent(id: string)
      requires Valid()
      modifies this, agents.Values
      ensures Valid() && View() == Apply(old(View()), Remove(id))
    {
      ghost var before := Budgets();
      agents := agents - {id};
      assert Budgets() == before - {id};
      RecalculateRates();
    }

    method PruneIdle(now: real, ttl: real) returns (stale: set<string>)
      requires Valid()
      modifies this, agents.Values
      ensures Valid() && View() == Apply(old(View()), Prune(now, ttl))
      ensures stale == StaleIds(old(Budgets()), now, ttl)
    {
      stale := set a | a in agents && agents[a].activeAt != 0.0 && now - agents[a].activeAt > ttl;
      ghost var before := Budgets();
      assert stale == StaleIds(before, now, ttl);
      if stale != {} {
        agents := agents - stale;
        assert Budgets() == before - stale;
        RecalculateRates();
      }
    }

    method SetTotalCapacity(slots: real)
      requires Valid()
      modifies this, agents.Values
      ensures Valid() && View() == Apply(old(View()), SetCapacity(slots))
    {
      ghost var before := Budgets();
      capacity := slots;
      assert Budgets() == before;
      RecalculateRates();
    }

    method ReplenishAll(now: real)
      requires Valid()
      modifies agents.Values
      ensures Valid() && View() == Apply(old(View()), Replenish(now))
    {
      hide Replenished;
      var todo := agents.Keys;
      ghost var before := Budgets();
      while todo != {}
        invariant todo <= agents.Keys
        invariant forall a :: a in agents ==>
                    agents[a].View() == if a in todo then before[a] else Replenished(before[a], now)
        decreases todo
      {
        var a :| a in todo;
        agents[a].Replenish(now);
        todo := todo - {a};
      }
      assert Budgets() == map a | a in before :: Replenished(before[a], now);
    }

    method ChargeAgent(id: string, cost: real, now: real)
      requires Valid()
      modifies agents.Values
      ensures Valid() && View() == Apply(old(View()), Charge(id, cost, now))
    {
      hide Charged;
      if id in agents {
        ghost var before := Budgets();
        agents[id].Charge(cost, now);
        assert Budgets() == before[id := Charged(before[id], cost, now)];
      }
    }

    method RetroactiveAdjust(id: string, estimated: real, actual: real)
      requires Valid()
      modifies agents.Values
      ensures Valid() && View() == Apply(old(View()), Adjust(id, estimated, actual))
    {
      if id in agents {
        ghost var before := Budgets();
        var b := agents[id];
        var delta := estimated - actual;
        if delta > 0.0 {
          b.Refund(delta);
        } else if delta < 0.0 {
          b.balance := b.balance + delta;
          b.consumed := b.consumed - delta;
        }
        assert b.View() == Adjusted(before[id], estimated, actual);
        assert Budgets() == before[id := Adjusted(before[id], estimated, actual)];
      }
    }

    /** The candidates whose oldest request has waited past the timeout. */
    method FindOverdue(cands: seq<string>, waits: map<string, real>) returns (overdue: seq<string>)
      ensures overdue == Overdue(cands, waits, timeout)
    {
      overdue := [];
      for i := 0 to |cands|
        invariant overdue == Overdue(cands[..i], waits, timeout)
      {
        assert cands[..i + 1][..i] == cands[..i];
        if WaitOf(waits, cands[i]) >= timeout {
          overdue := overdue + [cands[i]];
        }
      }
      assert cands[..|cands|] == cands;
    }

    /** `max(overdue, key=wait)` */
    method FindLongest(cands: seq<string>, waits: map<string, real>) returns (best: string)
      requires cands != []
      ensures best == Longest(cands, waits)
    {
      best := cands[0];
      for i := 1 to |cands|
        invariant best == Longest(cands[..i], waits)
      {
        assert cands[..i + 1][..i] == cands[..i];
        if WaitOf(waits, cands[i]) > WaitOf(waits, best) {
          best := cands[i];
        }
      }
      assert cands[..|cands|] == cands;
    }

    method FindRichest(cands: seq<string>) returns (best: Option<string>)
      requires Valid()
      ensures best == Richest(Budgets(), cands)
    {
      best := None;
      var bestScore := 0.0;
      for i := 0 to |cands|
        invariant best == Richest(Budgets(), cands[..i])
        invariant best.Some? ==> bestScore == Score(Budgets()[best.value])
      {
        assert cands[..i + 1][..i] == cands[..i];
        if cands[i] in agents {
          var b := agents[cands[i]];
          var score := if b.weight > 0.0 then b.balance / b.weight else b.balance;
          assert score == Score(Budgets()[cands[i]]);
          if best.None? || score > bestScore {
            best, bestScore := Some(cands[i]), score;
          }
        }
      }
      assert cands[..|cands|] == cands;
    }

    /** `pick_agent`.  An absent `wait_by_agent` is the empty map. */
    method PickAgent(cands: seq<string>, now: real, waits: map<string, real>) returns (r: Option<string>)
      requires Valid()
      modifies this`lastWaits
      ensures Valid() && View() == old(View())
      ensures r == Pick(Budgets(), cands, waits, timeout)
      ensures lastWaits == if cands == [] || waits == map[] then old(lastWaits)
                           else old(lastWaits) + map a | a in waits :: (waits[a], now)
    {
      if cands == [] {
        return None;
      }
      if waits != map[] {
        lastWaits := lastWaits + map a | a in waits :: (waits[a], now);
        var overdue := FindOverdue(cands, waits);
        if overdue != [] {
          var a := FindLongest(overdue, waits);
          return Some(a);
        }
      }
      r := FindRichest(cands);
    }
  }
}
