/** What an agent's budget holds besides its balance, over any run: the weight and
    cap last given to it, when it was last active, and how often it was charged; and
    who survives a prune. */
module BudgetProfile {
  import opened Prelude
  import opened AgentBudget
  import opened BudgetRuns

  datatype Profile = Profile(weight: real, cap: real, activeAt: real, requests: nat)

  /** Read off the operations: the agent exists from its creation until it is
      removed or pruned; a reweighting changes what it names; a charge counts and
      is the last activity. */
  function ProfileOf(ops: seq<Op>, a: string): Option<Profile> {
    if ops == [] then None
    else
      var p := ProfileOf(ops[..|ops| - 1], a);
      match ops[|ops| - 1]
      case Create(id, w, c, now) => if id == a && p.None? then Some(Profile(w, c, now, 0)) else p
      case Reweight(id, w, c) =>
        if id == a && p.Some? then
          Some(Profile(if w.Some? then w.value else p.value.weight, if c.Some? then c.value else p.value.cap,
                       p.value.activeAt, p.value.requests))
        else p
      case Remove(id) => if id == a then None else p
      case Prune(now, ttl) =>
        if p.Some? && p.value.activeAt != 0.0 && now - p.value.activeAt > ttl then None else p
      case Charge(id, _, now) =>
        if id == a && p.Some? then Some(Profile(p.value.weight, p.value.cap, now, p.value.requests + 1)) else p
      case _ => p
  }

  function Seen(b: Budget): Profile { Profile(b.weight, b.cap, b.activeAt, b.requests) }

  ghost function Held(l: Ledger, a: string): Option<Profile> {
    if a in l.agents then Some(Seen(l.agents[a])) else None
  }

  lemma RecalculatedHolds(l: Ledger, a: string)
    ensures Held(Recalculated(l), a) == Held(l, a)
  {
    RecalculatedKeys(l);
    if a in l.agents { RecalculatedOnlyRates(l, a); }
  }

  /** Over every run, what an agent's budget holds is what the operations say, and
      it is there exactly when they say so. */
  lemma {:induction false} ProfileAgrees(ops: seq<Op>, a: string)
    ensures Held(Run(EMPTY, ops), a) == ProfileOf(ops, a)
  {
    hide Recalculated;
    if ops != [] {
      var n := |ops| - 1;
      ProfileAgrees(ops[..n], a);
      var l := Run(EMPTY, ops[..n]);
      match ops[n] {
        case Create(id, w, c, now) => RecalculatedHolds(l.(agents := l.agents[id := NewBudget(w, c, now)]), a);
        case Reweight(id, w, c) =>
          if id in l.agents {
            RecalculatedHolds(l.(agents := l.agents[id := Reweighted(l.agents[id], w, c)]), a);
          }
        case Remove(id) => RecalculatedHolds(l.(agents := l.agents - {id}), a);
        case Prune(now, ttl) => RecalculatedHolds(l.(agents := l.agents - StaleIds(l.agents, now, ttl)), a);
        case SetCapacity(c) => RecalculatedHolds(l.(capacity := c), a);
        case Replenish(_) =>
        case Charge(_, _, _) =>
        case Adjust(_, _, _) =>
      }
    }
  }

  /** An agent charged at `t` and not removed since is there after a prune, exactly
      when the prune comes no later than the idle time after `t` (or `t` is zero,
      which stands for never). */
  lemma ChargedSurvives(ops: seq<Op>, a: string, cost: real, t: real, now: real, ttl: real)
    requires a in Run(EMPTY, ops).agents
    ensures a in Run(EMPTY, ops + [Charge(a, cost, t)] + [Prune(now, ttl)]).agents <==> now - t <= ttl || t == 0.0
  {
    hide Run;
    var charged := ops + [Charge(a, cost, t)];
    var pruned := charged + [Prune(now, ttl)];
    assert charged[..|ops|] == ops && pruned[..|charged|] == charged;
    ProfileAgrees(ops, a);
    ProfileAgrees(pruned, a);
  }
}
