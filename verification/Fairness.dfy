/** Weighted fairness of the budget picker over whole runs.  A fixed set of
    agents is always backlogged; each tick replenishes, or picks an agent and
    charges it. */
module Fairness {
  import opened Prelude
  import opened Sums
  import opened AgentBudget
  import opened BudgetRuns

  // ---------------------------------------------------- what the picker picks

  lemma {:induction false} OverdueMembers(cands: seq<string>, waits: map<string, real>, timeout: real,
                                          a: string)
    ensures a in Overdue(cands, waits, timeout) <==> a in cands && WaitOf(waits, a) >= timeout
  {
    if cands != [] {
      var n := |cands| - 1;
      OverdueMembers(cands[..n], waits, timeout, a);
      assert cands == cands[..n] + [cands[n]];
    }
  }

  lemma {:induction false} LongestWaits(cands: seq<string>, waits: map<string, real>, a: string)
    requires a in cands
    ensures Longest(cands, waits) in cands && WaitOf(waits, a) <= WaitOf(waits, Longest(cands, waits))
  {
    var n := |cands| - 1;
    if n > 0 {
      assert cands == cands[..n] + [cands[n]];
      LongestWaits(cands[..n], waits, if a in cands[..n] then a else cands[0]);
    }
  }

  lemma {:induction false} RichestScores(agents: map<string, Budget>, cands: seq<string>, a: string)
    requires a in cands && a in agents
    ensures var r := Richest(agents, cands);
            r.Some? && r.value in cands && Score(agents[a]) <= Score(agents[r.value])
  {
    var n := |cands| - 1;
    assert cands == cands[..n] + [cands[n]];
    if a in cands[..n] {
      RichestScores(agents, cands[..n], a);
    } else if Richest(agents, cands[..n]).Some? {
      RichestIsCandidate(agents, cands[..n]);
    }
  }

  lemma {:induction false} RichestIsCandidate(agents: map<string, Budget>, cands: seq<string>)
    ensures var r := Richest(agents, cands); r.Some? ==> r.value in cands
  {
    if cands != [] {
      RichestIsCandidate(agents, cands[..|cands| - 1]);
    }
  }

  /** When some candidate has waited past the timeout, the picked one has waited
      longest, whatever the balances are. */
  lemma OverdueIsServed(agents: map<string, Budget>, cands: seq<string>, waits: map<string, real>,
                        timeout: real, a: string)
    requires a in cands && WaitOf(waits, a) >= timeout && waits != map[]
    ensures var r := Pick(agents, cands, waits, timeout);
            && r.Some? && r.value in cands
            && WaitOf(waits, r.value) >= timeout && WaitOf(waits, a) <= WaitOf(waits, r.value)
  {
    OverdueMembers(cands, waits, timeout, a);
    var overdue := Overdue(cands, waits, timeout);
    LongestWaits(overdue, waits, a);
    OverdueMembers(cands, waits, timeout, Longest(overdue, waits));
  }

  /** Otherwise the picked one has the highest normalized balance. */
  lemma RichestIsServed(agents: map<string, Budget>, cands: seq<string>, waits: map<string, real>,
                        timeout: real, a: string)
    requires a in cands && a in agents
    requires forall c :: c in cands ==> WaitOf(waits, c) < timeout
    ensures var r := Pick(agents, cands, waits, timeout);
            r.Some? && r.value in agents && r.value in cands
            && Score(agents[a]) <= Score(agents[r.value])
  {
    RichestScores(agents, cands, a);
    if Overdue(cands, waits, timeout) != [] {
      OverdueMembers(cands, waits, timeout, Overdue(cands, waits, timeout)[0]);
    }
  }

  // ---------------------------------------------------------------------- ties

  /** Everybody before candidate `i` has waited less. */
  predicate LeadsWait(cands: seq<string>, waits: map<string, real>, i: nat) {
    i < |cands| && forall j :: 0 <= j < i ==> WaitOf(waits, cands[j]) < WaitOf(waits, cands[i])
  }

  /** Everybody known before candidate `i` has a lower normalized balance. */
  predicate LeadsScore(agents: map<string, Budget>, cands: seq<string>, i: nat) {
    && i < |cands| && cands[i] in agents
    && forall j :: 0 <= j < i && cands[j] in agents ==> Score(agents[cands[j]]) < Score(agents[cands[i]])
  }

  lemma LongestSnoc(o: seq<string>, x: string, waits: map<string, real>)
    ensures Longest(o + [x], waits) ==
              if o == [] || WaitOf(waits, x) > WaitOf(waits, Longest(o, waits)) then x else Longest(o, waits)
  {
    assert (o + [x])[..|o|] == o;
  }

  lemma LeadsStill(cands: seq<string>, waits: map<string, real>, n: nat, i: nat)
    requires n <= |cands| && LeadsWait(cands[..n], waits, i)
    ensures LeadsWait(cands, waits, i)
  {
    forall j | 0 <= j < i ensures WaitOf(waits, cands[j]) < WaitOf(waits, cands[i]) {
      assert cands[..n][j] == cands[j] && cands[..n][i] == cands[i];
    }
  }

  lemma LeadsAll(cands: seq<string>, waits: map<string, real>, timeout: real)
    requires cands != []
    requires var n := |cands| - 1;
             var o := Overdue(cands[..n], waits, timeout);
             WaitOf(waits, cands[n]) >= timeout && (o == [] || WaitOf(waits, cands[n]) > WaitOf(waits, Longest(o, waits)))
    ensures LeadsWait(cands, waits, |cands| - 1)
  {
    hide Overdue, Longest;
    var n := |cands| - 1;
    forall j | 0 <= j < n ensures WaitOf(waits, cands[j]) < WaitOf(waits, cands[n]) {
      assert cands[..n][j] == cands[j];
      OverdueMembers(cands[..n], waits, timeout, cands[j]);
      if WaitOf(waits, cands[j]) >= timeout { LongestWaits(Overdue(cands[..n], waits, timeout), waits, cands[j]); }
    }
  }

  lemma {:induction false} OverdueLeads(cands: seq<string>, waits: map<string, real>, timeout: real) returns (i: nat)
    requires Overdue(cands, waits, timeout) != []
    ensures i < |cands| && LeadsWait(cands, waits, i) && cands[i] == Longest(Overdue(cands, waits, timeout), waits)
  {
    hide Longest, LeadsWait;
    var n := |cands| - 1;
    var x, o := cands[n], Overdue(cands[..n], waits, timeout);
    LongestSnoc(o, x, waits);
    if WaitOf(waits, x) >= timeout && (o == [] || WaitOf(waits, x) > WaitOf(waits, Longest(o, waits))) {
      i := n;
      LeadsAll(cands, waits, timeout);
    } else {
      i := OverdueLeads(cands[..n], waits, timeout);
      LeadsWithin(cands[..n], waits, i);
      LeadsStill(cands, waits, n, i);
      if WaitOf(waits, x) < timeout { assert o + [] == o; }
    }
  }

  lemma LeadsWithin(cands: seq<string>, waits: map<string, real>, i: nat)
    requires LeadsWait(cands, waits, i)
    ensures i < |cands|
  {}

  lemma {:induction false} RichestLeads(agents: map<string, Budget>, cands: seq<string>) returns (i: nat)
    requires Richest(agents, cands).Some?
    ensures LeadsScore(agents, cands, i) && cands[i] == Richest(agents, cands).value
  {
    hide Score;
    var n := |cands| - 1;
    var x, best := cands[n], Richest(agents, cands[..n]);
    if x in agents && (best.None? || Score(agents[x]) > Score(agents[best.value])) {
      i := n;
      forall j | 0 <= j < n && cands[j] in agents ensures Score(agents[cands[j]]) < Score(agents[x]) {
        assert cands[..n][j] in cands[..n];
        RichestScores(agents, cands[..n], cands[j]);
      }
    } else {
      i := RichestLeads(agents, cands[..n]);
      forall j | 0 <= j < i && cands[j] in agents ensures Score(agents[cands[j]]) < Score(agents[cands[i]]) {
        assert cands[..n][j] == cands[j];
      }
    }
  }

  /** Among equals the first candidate is picked. */
  lemma FirstOfEquals(agents: map<string, Budget>, cands: seq<string>, waits: map<string, real>, timeout: real)
    requires Pick(agents, cands, waits, timeout).Some?
    ensures var r := Pick(agents, cands, waits, timeout).value;
            exists i :: 0 <= i < |cands| && cands[i] == r
              && (LeadsWait(cands, waits, i) || LeadsScore(agents, cands, i))
              && (waits != map[] && WaitOf(waits, r) >= timeout ==> LeadsWait(cands, waits, i))
  {
    var overdue := if waits == map[] then [] else Overdue(cands, waits, timeout);
    if overdue != [] {
      var i := OverdueLeads(cands, waits, timeout);
    } else {
      var i := RichestLeads(agents, cands);
      if waits != map[] && WaitOf(waits, cands[i]) >= timeout {
        OverdueMembers(cands, waits, timeout, cands[i]);
      }
    }
  }

  // --------------------------------------------------------------- fair runs

  datatype Tick =
    | Refill(now: real)
    | Serve(cands: seq<string>, waits: map<string, real>, cost: real, now: real)

  ghost function TickStep(l: Ledger, timeout: real, t: Tick): Ledger {
    match t
    case Refill(now) => Apply(l, Replenish(now))
    case Serve(cands, waits, cost, now) =>
      match Pick(l.agents, cands, waits, timeout)
      case None => l
      case Some(a) => Apply(l, Charge(a, cost, now))
  }

  ghost function TickRun(l: Ledger, timeout: real, ticks: seq<Tick>): Ledger {
    if ticks == [] then l
    else TickStep(TickRun(l, timeout, ticks[..|ticks| - 1]), timeout, ticks[|ticks| - 1])
  }

  /** Everybody has weight, the rates are the shares, and everybody was last
      replenished at the same time. */
  ghost predicate Level(l: Ledger) {
    && l.capacity > 0.0 && TotalWeight(l.agents) > 0.0 && RatesFair(l)
    && (forall a :: a in l.agents ==> l.agents[a].weight > 0.0)
    && (forall a, b :: a in l.agents && b in l.agents ==>
          l.agents[a].replenishedAt == l.agents[b].replenishedAt)
  }

  /** The highest score a refill can lead to. */
  function CapScore(b: Budget): real {
    if b.weight > 0.0 then b.cap / b.weight else b.cap
  }

  /** No balance is cut off by its cap in this refill. */
  ghost predicate Uncapped(l: Ledger, now: real) {
    forall a :: a in l.agents ==>
      l.agents[a].balance + l.agents[a].rate * (now - l.agents[a].replenishedAt) <= l.agents[a].cap
  }

  /** Caps that do not distort shares: none binds, or they are in proportion to
      the weights. */
  ghost predicate NeutralCaps(l: Ledger, now: real) {
    || Uncapped(l, now)
    || (forall a, b :: a in l.agents && b in l.agents ==>
          CapScore(l.agents[a]) == CapScore(l.agents[b]))
  }

  /** A tick of the situation the fairness claim is about: all agents are
      candidates, nobody has waited past the timeout, a cost is at most C. */
  ghost predicate FairTick(l: Ledger, timeout: real, t: Tick, C: real) {
    match t
    case Refill(now) => NeutralCaps(l, now)
    case Serve(cands, waits, cost, _) =>
      && (forall a :: a in cands <==> a in l.agents)
      && (forall a :: a in cands ==> WaitOf(waits, a) < timeout)
      && 0.0 <= cost <= C
  }

  ghost predicate FairTicks(l: Ledger, timeout: real, ticks: seq<Tick>, C: real) {
    ticks == [] ||
    (var n := |ticks| - 1;
     FairTicks(l, timeout, ticks[..n], C) &&
     FairTick(TickRun(l, timeout, ticks[..n]), timeout, ticks[n], C))
  }

  /** Any two normalized balances are at most D apart. */
  ghost predicate Within(l: Ledger, D: real) {
    forall a, b :: a in l.agents && b in l.agents ==> Score(l.agents[a]) - Score(l.agents[b]) <= D
  }

  /** D covers the largest cost over the smallest weight. */
  ghost predicate Covers(l: Ledger, D: real, C: real) {
    forall a :: a in l.agents ==> l.agents[a].weight > 0.0 && C / l.agents[a].weight <= D
  }

  // -------------------------------------------------------- arithmetic steps

  /** Accrued credit over weight is the same for everybody. */
  lemma CreditPerWeight(capacity: real, total: real, w: real, elapsed: real)
    requires total > 0.0 && w > 0.0
    ensures Share(capacity, total, w) * elapsed / w == capacity / total * elapsed
  {
    var q := capacity / total;
    assert Share(capacity, total, w) == q * w;
    assert q * w * elapsed == q * elapsed * w;
  }

  lemma DivideSum(x: real, y: real, w: real)
    requires w > 0.0
    ensures (x + y) / w == x / w + y / w && (x - y) / w == x / w - y / w
  {}

  lemma DivideMonotone(x: real, y: real, w: real)
    requires w > 0.0 && x <= y
    ensures x / w <= y / w
  {}

  lemma DivideMin(x: real, y: real, w: real)
    requires w > 0.0
    ensures RMin(x, y) / w == RMin(x / w, y / w)
  {
    if x <= y { DivideMonotone(x, y, w); } else { DivideMonotone(y, x, w); }
  }

  /** What a refill adds to every score before the caps. */
  ghost function Accrued(l: Ledger, now: real, since: real): real {
    var total := TotalWeight(l.agents);
    if total > 0.0 then l.capacity / total * (now - since) else 0.0
  }

  /** The score after a refill is the old score plus a common amount, cut off
      at the cap over the weight. */
  lemma RefillScore(l: Ledger, now: real, a: string)
    requires Level(l) && a in l.agents && l.agents[a].replenishedAt < now
    ensures var b := l.agents[a];
            Score(Replenished(b, now)) ==
              RMin(CapScore(b),
                   Score(b) + Accrued(l, now, b.replenishedAt))
  {
    hide Level, RatesFair, Share, TotalWeight;
    LevelFacts(l, a);
    var b := l.agents[a];
    var elapsed := now - b.replenishedAt;
    CreditPerWeight(l.capacity, TotalWeight(l.agents), b.weight, elapsed);
    var credit := b.rate * elapsed;
    assert Replenished(b, now).balance == RMin(b.cap, b.balance + credit);
    DivideMin(b.cap, b.balance + credit, b.weight);
    DivideSum(b.balance, credit, b.weight);
  }

  lemma LevelFacts(l: Ledger, a: string)
    requires Level(l) && a in l.agents
    ensures l.agents[a].weight > 0.0 && TotalWeight(l.agents) > 0.0
    ensures l.agents[a].rate == Share(l.capacity, TotalWeight(l.agents), l.agents[a].weight)
  {}

  // ----------------------------------------------------------- the two ticks

  lemma RefillLevel(l: Ledger, now: real)
    requires Level(l)
    ensures Level(Apply(l, Replenish(now)))
  {
    var k := Apply(l, Replenish(now));
    assert Weights(k.agents) == Weights(l.agents);
    ApplyFair(l, Replenish(now));
  }

  lemma CutTogether(x: real, y: real, D: real, m: real)
    requires x - y <= D && D >= 0.0
    ensures RMin(m, x) - RMin(m, y) <= D
  {}

  lemma RefillWithin(l: Ledger, now: real, D: real, a: string, b: string)
    requires Level(l) && Within(l, D) && NeutralCaps(l, now) && a in l.agents && b in l.agents
    ensures var k := Apply(l, Replenish(now));
            Score(k.agents[a]) - Score(k.agents[b]) <= D
  {
    hide Level, Replenished, Accrued, Score, CapScore, Uncapped;
    var x, y := l.agents[a], l.agents[b];
    SameTime(l, a, b);
    var k := Apply(l, Replenish(now));
    assert k.agents[a] == Replenished(x, now) && k.agents[b] == Replenished(y, now);
    assert Score(x) - Score(y) <= D && Score(x) - Score(x) <= D;
    if x.replenishedAt < now {
      var common := Accrued(l, now, x.replenishedAt);
      if Uncapped(l, now) {
        UncappedScore(l, now, a);
        UncappedScore(l, now, b);
      } else {
        RefillScore(l, now, a);
        RefillScore(l, now, b);
        CutTogether(Score(x) + common, Score(y) + common, D, CapScore(x));
      }
    } else {
      NoRefill(x, now);
      NoRefill(y, now);
    }
  }

  lemma NoRefill(b: Budget, now: real)
    requires now <= b.replenishedAt
    ensures Score(Replenished(b, now)) == Score(b)
  {}

  lemma SameTime(l: Ledger, a: string, b: string)
    requires Level(l) && a in l.agents && b in l.agents
    ensures l.agents[a].replenishedAt == l.agents[b].replenishedAt && TotalWeight(l.agents) > 0.0
  {}

  lemma UncappedScore(l: Ledger, now: real, a: string)
    requires Level(l) && Uncapped(l, now) && a in l.agents && l.agents[a].replenishedAt < now
    ensures var b := l.agents[a];
            Score(Replenished(b, now)) ==
              Score(b) + Accrued(l, now, b.replenishedAt)
  {
    hide Level, RatesFair, Share, TotalWeight, Uncapped;
    LevelFacts(l, a);
    var b := l.agents[a];
    var elapsed := now - b.replenishedAt;
    var credit := b.rate * elapsed;
    UncappedFacts(l, now, a);
    CreditPerWeight(l.capacity, TotalWeight(l.agents), b.weight, elapsed);
    assert Replenished(b, now).balance == b.balance + credit;
    DivideSum(b.balance, credit, b.weight);
  }

  lemma UncappedFacts(l: Ledger, now: real, a: string)
    requires Uncapped(l, now) && a in l.agents
    ensures l.agents[a].balance + l.agents[a].rate * (now - l.agents[a].replenishedAt) <= l.agents[a].cap
  {}

  lemma ServeLevel(l: Ledger, a: string, cost: real, now: real)
    requires Level(l) && a in l.agents
    ensures Level(Apply(l, Charge(a, cost, now)))
  {
    var k := Apply(l, Charge(a, cost, now));
    assert Weights(k.agents) == Weights(l.agents);
    ApplyFair(l, Charge(a, cost, now));
  }

  lemma ServeWithin(l: Ledger, top: string, cost: real, now: real, D: real, C: real)
    requires Level(l) && Within(l, D) && Covers(l, D, C) && 0.0 <= cost <= C && top in l.agents
    requires forall a :: a in l.agents ==> Score(l.agents[a]) <= Score(l.agents[top])
    ensures Within(Apply(l, Charge(top, cost, now)), D)
  {
    var k := Apply(l, Charge(top, cost, now));
    var w := l.agents[top].weight;
    DivideSum(l.agents[top].balance, cost, w);
    DivideMonotone(0.0, cost, w);
    DivideMonotone(cost, C, w);
    assert Score(k.agents[top]) == Score(l.agents[top]) - cost / w;
    forall a, b | a in k.agents && b in k.agents
      ensures Score(k.agents[a]) - Score(k.agents[b]) <= D
    {
      assert Score(l.agents[a]) - Score(l.agents[b]) <= D;
      assert a != top ==> k.agents[a] == l.agents[a];
      assert b != top ==> k.agents[b] == l.agents[b];
    }
  }

  lemma TickKeeps(l: Ledger, timeout: real, t: Tick, D: real, C: real)
    requires Level(l) && Within(l, D) && Covers(l, D, C) && FairTick(l, timeout, t, C)
    ensures var k := TickStep(l, timeout, t);
            Level(k) && Within(k, D) && Covers(k, D, C)
            && k.capacity == l.capacity && k.agents.Keys == l.agents.Keys
  {
    var k := TickStep(l, timeout, t);
    match t {
      case Refill(now) =>
        hide Level, Replenished;
        RefillLevel(l, now);
        forall a, b | a in k.agents && b in k.agents
          ensures Score(k.agents[a]) - Score(k.agents[b]) <= D
        {
          RefillWithin(l, now, D, a, b);
        }
        RefillCovers(l, now, D, C);
      case Serve(cands, waits, cost, now) =>
        hide Level, Within, Pick;
        ServeKeeps(l, timeout, cands, waits, cost, now, D, C);
    }
  }

  lemma RefillCovers(l: Ledger, now: real, D: real, C: real)
    requires Covers(l, D, C) && Level(l)
    ensures Covers(Apply(l, Replenish(now)), D, C)
  {
    forall a | a in l.agents
      ensures Apply(l, Replenish(now)).agents[a].weight > 0.0
      ensures C / Apply(l, Replenish(now)).agents[a].weight <= D
    {
      assert Apply(l, Replenish(now)).agents[a].weight == l.agents[a].weight;
    }
  }

  lemma ServeKeeps(l: Ledger, timeout: real, cands: seq<string>, waits: map<string, real>,
                   cost: real, now: real, D: real, C: real)
    requires Level(l) && Within(l, D) && Covers(l, D, C)
    requires FairTick(l, timeout, Serve(cands, waits, cost, now), C)
    ensures var k := TickStep(l, timeout, Serve(cands, waits, cost, now));
            Level(k) && Within(k, D) && Covers(k, D, C)
            && k.capacity == l.capacity && k.agents.Keys == l.agents.Keys
  {
    hide Level, Within, Pick, Score, Charged;
    var r := Pick(l.agents, cands, waits, timeout);
    if r.Some? {
      PickKnown(l.agents, cands, waits, timeout);
      var top := r.value;
      forall a | a in l.agents ensures Score(l.agents[a]) <= Score(l.agents[top]) {
        RichestIsServed(l.agents, cands, waits, timeout, a);
      }
      ServeLevel(l, top, cost, now);
      ServeWithin(l, top, cost, now, D, C);
      ServeCovers(l, top, cost, now, D, C);
    }
  }

  lemma ServeCovers(l: Ledger, top: string, cost: real, now: real, D: real, C: real)
    requires Covers(l, D, C) && Level(l) && top in l.agents
    ensures Covers(Apply(l, Charge(top, cost, now)), D, C)
  {
    var k := Apply(l, Charge(top, cost, now));
    forall a | a in k.agents ensures k.agents[a].weight > 0.0 && C / k.agents[a].weight <= D {
      assert k.agents[a].weight == l.agents[a].weight;
    }
  }

  lemma PickKnown(agents: map<string, Budget>, cands: seq<string>, waits: map<string, real>, timeout: real)
    requires forall a :: a in cands ==> WaitOf(waits, a) < timeout
    ensures var r := Pick(agents, cands, waits, timeout); r.Some? ==> r.value in agents
  {
    if Overdue(cands, waits, timeout) != [] {
      OverdueMembers(cands, waits, timeout, Overdue(cands, waits, timeout)[0]);
    }
  }

  // ------------------------------------------------------------- the theorem

  /** Weighted fairness.  In any run of refills and services over agents that
      are always backlogged, any two balance/weight ratios never differ by more
      than D, for every D that covers the initial spread and the largest cost
      over the smallest weight. */
  lemma {:induction false} WeightedFairness(l: Ledger, timeout: real, ticks: seq<Tick>, D: real, C: real)
    requires Level(l) && Within(l, D) && Covers(l, D, C) && FairTicks(l, timeout, ticks, C)
    ensures var k := TickRun(l, timeout, ticks);
            Level(k) && Within(k, D) && Covers(k, D, C)
            && k.capacity == l.capacity && k.agents.Keys == l.agents.Keys
  {
    hide Level, Within, Covers, TickStep, FairTick;
    if ticks != [] {
      var n := |ticks| - 1;
      WeightedFairness(l, timeout, ticks[..n], D, C);
      TickKeeps(TickRun(l, timeout, ticks[..n]), timeout, ticks[n], D, C);
    }
  }

  // ------------------------------------------------------ fairness of service

  ghost predicate UncappedTicks(l: Ledger, timeout: real, ticks: seq<Tick>) {
    ticks == [] ||
    (var n := |ticks| - 1;
     UncappedTicks(l, timeout, ticks[..n]) &&
     (ticks[n].Refill? ==> Uncapped(TickRun(l, timeout, ticks[..n]), ticks[n].now)))
  }

  /** Consumption over weight. */
  function Served(b: Budget): real {
    if b.weight > 0.0 then b.consumed / b.weight else b.consumed
  }

  /** One tick gives everybody the same amount per weight, as balance or as
      service. */
  lemma TickGivesEqually(l: Ledger, timeout: real, t: Tick, D: real, C: real, a: string, b: string)
    requires Level(l) && FairTick(l, timeout, t, C) && (t.Refill? ==> Uncapped(l, t.now))
    requires a in l.agents && b in l.agents
    ensures var k := TickStep(l, timeout, t);
            && a in k.agents && b in k.agents
            && Score(k.agents[a]) + Served(k.agents[a]) - Score(l.agents[a]) - Served(l.agents[a])
               == Score(k.agents[b]) + Served(k.agents[b]) - Score(l.agents[b]) - Served(l.agents[b])
  {
    match t {
      case Refill(now) =>
        hide Level, Replenished, Accrued, Score, Uncapped;
        var x, y := l.agents[a], l.agents[b];
        SameTime(l, a, b);
        SameServed(x, now);
        SameServed(y, now);
        if x.replenishedAt < now {
          UncappedScore(l, now, a);
          UncappedScore(l, now, b);
        } else {
          NoRefill(x, now);
          NoRefill(y, now);
        }
      case Serve(cands, waits, cost, now) =>
        hide Level, Pick, Score, Served, Charged;
        PickKnown(l.agents, cands, waits, timeout);
        var r := Pick(l.agents, cands, waits, timeout);
        if r.Some? {
          LevelFacts(l, r.value);
          ServeMoves(l.agents[r.value], cost, now);
        }
    }
  }

  lemma SameServed(b: Budget, now: real)
    ensures Served(Replenished(b, now)) == Served(b)
  {}

  lemma ServeMoves(b: Budget, cost: real, now: real)
    requires b.weight > 0.0
    ensures Score(Charged(b, cost, now)) + Served(Charged(b, cost, now)) == Score(b) + Served(b)
  {
    DivideSum(b.balance, cost, b.weight);
    DivideSum(b.consumed, cost, b.weight);
  }

  lemma {:induction false} RunGivesEqually(l: Ledger, timeout: real, ticks: seq<Tick>, D: real, C: real,
                                           a: string, b: string)
    requires Level(l) && Within(l, D) && Covers(l, D, C)
    requires FairTicks(l, timeout, ticks, C) && UncappedTicks(l, timeout, ticks)
    requires a in l.agents && b in l.agents
    ensures var k := TickRun(l, timeout, ticks);
            && k.agents.Keys == l.agents.Keys
            && Score(k.agents[a]) + Served(k.agents[a]) - Score(l.agents[a]) - Served(l.agents[a])
               == Score(k.agents[b]) + Served(k.agents[b]) - Score(l.agents[b]) - Served(l.agents[b])
  {
    hide Level, Within, Covers, TickStep, FairTick, Score, Served, Uncapped;
    if ticks != [] {
      var n := |ticks| - 1;
      RunGivesEqually(l, timeout, ticks[..n], D, C, a, b);
      WeightedFairness(l, timeout, ticks[..n], D, C);
      var m := TickRun(l, timeout, ticks[..n]);
      TickGivesEqually(m, timeout, ticks[n], D, C, a, b);
      TickKeeps(m, timeout, ticks[n], D, C);
    }
  }

  /** The service any two agents receive in such a run, per weight, differs by
      at most 2 D, however long the run is. */
  lemma ServiceIsProportional(l: Ledger, timeout: real, ticks: seq<Tick>, D: real, C: real,
                              a: string, b: string)
    requires Level(l) && Within(l, D) && Covers(l, D, C)
    requires FairTicks(l, timeout, ticks, C) && UncappedTicks(l, timeout, ticks)
    requires a in l.agents && b in l.agents
    ensures var k := TickRun(l, timeout, ticks);
            && a in k.agents && b in k.agents
            && (Served(k.agents[a]) - Served(l.agents[a])) - (Served(k.agents[b]) - Served(l.agents[b]))
               <= 2.0 * D
  {
    hide Level, Covers, TickStep, FairTicks, UncappedTicks, TickRun, Score, Served;
    RunGivesEqually(l, timeout, ticks, D, C, a, b);
    WeightedFairness(l, timeout, ticks, D, C);
    var k := TickRun(l, timeout, ticks);
    assert Score(k.agents[b]) - Score(k.agents[a]) <= D && Score(l.agents[a]) - Score(l.agents[b]) <= D;
  }

  // ------------------------------------------------------ the starting point

  lemma {:induction false} PositiveSum(m: map<string, real>)
    requires forall a :: a in m ==> m[a] > 0.0
    ensures Sum(m) >= 0.0 && (m.Keys != {} ==> Sum(m) > 0.0)
    decreases |m|
  {
    if m.Keys != {} {
      var a :| a in m;
      SumPick(m, a);
      PositiveSum(m - {a});
    }
  }

  /** The situation is reached: after any run of public operations that leaves
      somebody there, everybody with weight, and capacity to share, one refill
      puts the ledger level. */
  lemma LevelReached(ops: seq<Op>, now: real)
    requires var l := Run(EMPTY, ops);
             l.capacity > 0.0 && l.agents.Keys != {} && forall a :: a in l.agents ==> l.agents[a].weight > 0.0
    ensures Level(Apply(Run(EMPTY, ops), Replenish(now)))
  {
    hide Run, RatesFair;
    var l := Run(EMPTY, ops);
    var k := Apply(l, Replenish(now));
    RunFair(ops);
    SameRatesFair(l, k);
    assert Weights(k.agents).Keys == l.agents.Keys;
    PositiveSum(Weights(k.agents));
  }
}
