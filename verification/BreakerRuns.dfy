/** The breakers over whole logs. The cooldown's pruned list is the window of the
    full log, so it trips when the plain count reaches the limit; the circuit
    opens only on a failed `/health` after enough failed polls, and closes on the
    first sign of life. */
module BreakerRuns {
  import opened Prelude
  import opened Seqs
  import opened Breakers

  // --------------------------------------------------------- cooldown: history

  function Run(s: Settings, log: seq<Failure>): Cooldown {
    if log == [] then Cooldown(map[], map[], map[], map[])
    else Recorded(Run(s, log[..|log| - 1]), s, log[|log| - 1])
  }

  /** The log's times are in order, and none is later than `now`. */
  predicate InOrder(log: seq<Failure>, now: real) {
    log == [] || (log[|log| - 1].now <= now && InOrder(log[..|log| - 1], log[|log| - 1].now))
  }

  /** A failure that counts against an endpoint: one of the two flags is on, the
      backend answered with a status of 500 or more, and the caller had given it a
      fair chance. */
  predicate Hits(s: Settings, ep: string, f: Failure) {
    f.ep == ep && (s.shadow || s.enforce) && f.status.Some? && f.status.value >= 500 && !f.bestEffort
  }

  function Recent(cutoff: real): real -> bool {
    (t: real) => t >= cutoff
  }

  /** Does this failure, after these earlier ones, reach the limit? The earlier
      list is never pruned: the window is applied to all of it. */
  predicate Reaches(s: Settings, earlier: seq<real>, now: real) {
    |Filter(Recent(now - s.window), earlier + [now])| >= s.allowed
  }

  /** All counting failures of an endpoint since its last trip. */
  function SinceTrip(s: Settings, log: seq<Failure>, ep: string): seq<real> {
    if log == [] then []
    else
      var f := log[|log| - 1];
      var earlier := SinceTrip(s, log[..|log| - 1], ep);
      if !Hits(s, ep, f) then earlier
      else if Reaches(s, earlier, f.now) then []
      else earlier + [f.now]
  }

  /** The failures that tripped the endpoint. */
  function TripTimes(s: Settings, log: seq<Failure>, ep: string): seq<real> {
    if log == [] then []
    else
      var n := |log| - 1;
      var f := log[n];
      TripTimes(s, log[..n], ep)
      + if Hits(s, ep, f) && Reaches(s, SinceTrip(s, log[..n], ep), f.now) then [f.now] else []
  }

  predicate Ordered(ts: seq<real>) {
    forall i, j :: 0 <= i < j < |ts| ==> ts[i] <= ts[j]
  }

  lemma OrderedSnoc(ts: seq<real>, x: real)
    requires Ordered(ts) && forall t :: t in ts ==> t <= x
    ensures Ordered(ts + [x])
  {
    forall i | 0 <= i < |ts| ensures ts[i] <= x { assert ts[i] in ts; }
  }

  /** On an ordered list, popping old fronts is filtering. */
  lemma {:induction false} PrunedIsFilter(ts: seq<real>, cutoff: real)
    requires Ordered(ts)
    ensures Pruned(ts, cutoff) == Filter(Recent(cutoff), ts)
  {
    if ts != [] && ts[0] < cutoff {
      assert ts == [ts[0]] + ts[1..];
      PrunedIsFilter(ts[1..], cutoff);
      FilterConcat(Recent(cutoff), [ts[0]], ts[1..]);
      FilterNone(Recent(cutoff), [ts[0]]);
    } else if ts != [] {
      FilterAll(Recent(cutoff), ts);
    }
  }

  /** A later cutoff swallows an earlier one. */
  lemma FilterAgain(ts: seq<real>, early: real, late: real)
    requires early <= late
    ensures Filter(Recent(late), Filter(Recent(early), ts)) == Filter(Recent(late), ts)
  {
    FilterTwice(Recent(late), Recent(early), Recent(late), ts);
  }

  lemma {:induction false} FilterOrdered(ts: seq<real>, cutoff: real)
    requires Ordered(ts)
    ensures Ordered(Filter(Recent(cutoff), ts))
  {
    if ts != [] {
      var n := |ts| - 1;
      FilterOrdered(ts[..n], cutoff);
      forall x | x in Filter(Recent(cutoff), ts[..n]) ensures x <= ts[n] {
        FilterMember(Recent(cutoff), ts[..n], x);
      }
      OrderedSnoc(Filter(Recent(cutoff), ts[..n]), ts[n]);
    }
  }

  /** What the breaker holds for one endpoint, against its unpruned history: the
      list is a window of that history that ends no later than any window still
      to be applied. */
  ghost predicate Windowed(c: Cooldown, s: Settings, log: seq<Failure>, ep: string, now: real) {
    && Ordered(SinceTrip(s, log, ep)) && (forall t :: t in SinceTrip(s, log, ep) ==> t <= now)
    && (exists cut :: cut <= now - s.window && TimesOf(c, ep) == Filter(Recent(cut), SinceTrip(s, log, ep)))
    && CountOf(c.trips, ep) == |TripTimes(s, log, ep)|
    && (ep in c.until <==> s.enforce && TripTimes(s, log, ep) != [])
    && (ep in c.until ==> c.until[ep] == TripTimes(s, log, ep)[|TripTimes(s, log, ep)| - 1] + s.duration)
  }

  /** The pruned list, with the new failure, is the window of the history. */
  lemma PruneStep(ts: seq<real>, cut: real, now: real, window: real)
    requires Ordered(ts) && (forall t :: t in ts ==> t <= now) && cut <= now - window
    ensures Pruned(Filter(Recent(cut), ts) + [now], now - window) == Filter(Recent(now - window), ts + [now])
  {
    hide Pruned, Filter;
    var kept := Filter(Recent(cut), ts);
    FilterOrdered(ts, cut);
    forall x | x in kept ensures x <= now { FilterMember(Recent(cut), ts, x); }
    OrderedSnoc(kept, now);
    PrunedIsFilter(kept + [now], now - window);
    FilterSnoc(Recent(now - window), kept, now);
    FilterSnoc(Recent(now - window), ts, now);
    FilterAgain(ts, cut, now - window);
  }

  lemma HistorySnoc(s: Settings, log: seq<Failure>, f: Failure, ep: string)
    ensures var ts := SinceTrip(s, log, ep);
            var hit, reached := Hits(s, ep, f), Reaches(s, ts, f.now);
            && SinceTrip(s, log + [f], ep) == (if !hit then ts else if reached then [] else ts + [f.now])
            && TripTimes(s, log + [f], ep) == TripTimes(s, log, ep) + (if hit && reached then [f.now] else [])
  {
    hide Reaches;
    assert (log + [f])[..|log|] == log;
  }

  lemma HitKeeps(c: Cooldown, s: Settings, log: seq<Failure>, f: Failure)
    requires Windowed(c, s, log, f.ep, f.now) && Counts(s, f)
    ensures Windowed(Recorded(c, s, f), s, log + [f], f.ep, f.now)
  {
    hide Pruned, Filter, SinceTrip, TripTimes, Ordered;
    var ts := SinceTrip(s, log, f.ep);
    var cut :| cut <= f.now - s.window && TimesOf(c, f.ep) == Filter(Recent(cut), ts);
    PruneStep(ts, cut, f.now, s.window);
    HistorySnoc(s, log, f, f.ep);
    var d := Recorded(c, s, f);
    var us := SinceTrip(s, log + [f], f.ep);
    if Reaches(s, ts, f.now) {
      FilterNone(Recent(f.now - s.window), []);
      assert us == [] && TimesOf(d, f.ep) == [];
      NothingOrdered();
    } else {
      assert us == ts + [f.now];
      OrderedSnoc(ts, f.now);
    }
    assert TimesOf(d, f.ep) == Filter(Recent(f.now - s.window), us);
  }

  lemma NothingOrdered()
    ensures Ordered([])
  {}

  lemma OtherKeeps(c: Cooldown, s: Settings, log: seq<Failure>, f: Failure, ep: string, was: real)
    requires Windowed(c, s, log, ep, was) && !Hits(s, ep, f) && was <= f.now
    ensures Windowed(Recorded(c, s, f), s, log + [f], ep, f.now)
  {
    hide Pruned, Filter, Reaches, SinceTrip, TripTimes, Ordered;
    HistorySnoc(s, log, f, ep);
    var d := Recorded(c, s, f);
    var cut :| cut <= was - s.window && TimesOf(c, ep) == Filter(Recent(cut), SinceTrip(s, log, ep));
    assert TimesOf(d, ep) == Filter(Recent(cut), SinceTrip(s, log + [f], ep));
  }

  lemma {:induction false} RunIsWindowed(s: Settings, log: seq<Failure>, ep: string, now: real)
    requires InOrder(log, now)
    ensures Windowed(Run(s, log), s, log, ep, now)
  {
    hide Recorded;
    if log == [] {
      FilterNone(Recent(now - s.window), []);
      assert TimesOf(Run(s, log), ep) == Filter(Recent(now - s.window), SinceTrip(s, log, ep));
    } else {
      var n := |log| - 1;
      var f := log[n];
      RunIsWindowed(s, log[..n], ep, f.now);
      assert log == log[..n] + [f];
      if Hits(s, ep, f) {
        HitKeeps(Run(s, log[..n]), s, log[..n], f);
      } else {
        OtherKeeps(Run(s, log[..n]), s, log[..n], f, ep, f.now);
      }
      Later(Run(s, log), s, log, ep, f.now, now);
    }
  }

  lemma Later(c: Cooldown, s: Settings, log: seq<Failure>, ep: string, was: real, now: real)
    requires Windowed(c, s, log, ep, was) && was <= now
    ensures Windowed(c, s, log, ep, now)
  {
    hide SinceTrip, TripTimes, Filter;
    var cut :| cut <= was - s.window && TimesOf(c, ep) == Filter(Recent(cut), SinceTrip(s, log, ep));
    assert cut <= now - s.window;
  }

  // --------------------------------------------------------- cooldown: theorems

  /** For constant settings and monotone time, a failure trips the breaker exactly
      when it counts and the plain number of counting failures of that endpoint
      since its last trip, within the window, reaches the limit. */
  lemma TripIsTheCount(s: Settings, log: seq<Failure>, f: Failure, ep: string)
    requires InOrder(log, f.now)
    ensures var before := Run(s, log);
            var after := Recorded(before, s, f);
            CountOf(after.trips, ep) ==
              CountOf(before.trips, ep)
              + if Hits(s, ep, f) && Reaches(s, SinceTrip(s, log, ep), f.now) then 1 else 0
  {
    hide Recorded, Windowed;
    assert (log + [f])[..|log|] == log;
    RunIsWindowed(s, log, ep, f.now);
    RunIsWindowed(s, log + [f], ep, f.now);
    TripCount(Run(s, log), s, log, ep, f.now);
    TripCount(Run(s, log + [f]), s, log + [f], ep, f.now);
  }

  lemma TripCount(c: Cooldown, s: Settings, log: seq<Failure>, ep: string, now: real)
    requires Windowed(c, s, log, ep, now)
    ensures CountOf(c.trips, ep) == |TripTimes(s, log, ep)|
  {}

  /** After recording a failure that counts, the list is exactly the window of the
      unpruned history. */
  lemma ListIsTheWindow(s: Settings, log: seq<Failure>, f: Failure)
    requires InOrder(log, f.now) && Hits(s, f.ep, f)
    ensures TimesOf(Recorded(Run(s, log), s, f), f.ep)
         == Filter(Recent(f.now - s.window), SinceTrip(s, log + [f], f.ep))
  {
    hide Filter, Pruned;
    RunIsWindowed(s, log, f.ep, f.now);
    var c := Run(s, log);
    var ts := SinceTrip(s, log, f.ep);
    var cut :| cut <= f.now - s.window && TimesOf(c, f.ep) == Filter(Recent(cut), ts);
    PruneStep(ts, cut, f.now, s.window);
    assert (log + [f])[..|log|] == log;
    FilterNone(Recent(f.now - s.window), []);
  }

  function Hitting(s: Settings, ep: string): Failure -> bool {
    (f: Failure) => Hits(s, ep, f)
  }

  function BestEffort(s: Settings, ep: string): Failure -> bool {
    (f: Failure) => f.ep == ep && (s.shadow || s.enforce) && f.status.Some? && f.status.value >= 500 && f.bestEffort
  }

  /** Every excluded best-effort fault is tallied, and nothing else is. */
  lemma {:induction false} SkipsAreCounted(s: Settings, log: seq<Failure>, ep: string)
    ensures CountOf(Run(s, log).skips, ep) == |Filter(BestEffort(s, ep), log)|
  {
    hide Pruned;
    if log != [] {
      SkipsAreCounted(s, log[..|log| - 1], ep);
    }
  }

  lemma {:induction false} FilterShorter<T>(p: T -> bool, s: seq<T>)
    ensures |Filter(p, s)| <= |s|
  {
    if s != [] { FilterShorter(p, s[..|s| - 1]); }
  }

  /** Every trip is paid for: it uses up at least `allowed` counting failures, and
      no failure pays for two trips. */
  lemma {:induction false} TripsArePaidFor(s: Settings, log: seq<Failure>, ep: string)
    requires s.allowed >= 0
    ensures s.allowed * |TripTimes(s, log, ep)| + |SinceTrip(s, log, ep)| <= |Filter(Hitting(s, ep), log)|
  {
    if log != [] {
      var n := |log| - 1;
      TripsArePaidFor(s, log[..n], ep);
      var earlier := SinceTrip(s, log[..n], ep);
      FilterShorter(Recent(log[n].now - s.window), earlier + [log[n].now]);
      OneMore(s.allowed, |TripTimes(s, log[..n], ep)|);
    }
  }

  lemma OneMore(a: int, n: int)
    ensures a * (n + 1) == a * n + a
  {}

  // ------------------------------------------------------------------ circuit

  function Polled(threshold: int, ps: seq<Poll>): Circuit {
    if ps == [] then Closed0 else Probed(Polled(threshold, ps[..|ps| - 1]), threshold, ps[|ps| - 1])
  }

  function Need(threshold: int): int { Max(threshold, 1) }

  /** The last `n` polls all failed discovery. */
  predicate Failing(ps: seq<Poll>, n: int) {
    n <= |ps| && forall i :: |ps| - n <= i < |ps| && i >= 0 ==> !ps[i].ok
  }

  /** The last `n` polls showed no sign of life at all. */
  predicate Dark(ps: seq<Poll>, n: int) {
    n <= |ps| && forall i :: |ps| - n <= i < |ps| && i >= 0 ==> !ps[i].ok && !ps[i].alive
  }

  /** The poll that opened the circuit: it and the ones before it failed, and
      since then there was no sign of life. */
  ghost predicate OpenedAt(ps: seq<Poll>, threshold: int, j: nat, since: Option<real>) {
    && j < |ps| && since == Some(ps[j].now)
    && Failing(ps[..j + 1], Need(threshold))
    && Dark(ps, |ps| - j)
  }

  lemma {:induction false} CircuitHistory(threshold: int, ps: seq<Poll>)
    ensures var h := Polled(threshold, ps);
            && (h.healthy ==> h.failures < Need(threshold) && Failing(ps, h.failures) && h.unhealthySince == None)
            && (!h.healthy ==> h.failures >= Need(threshold) && exists j: nat :: OpenedAt(ps, threshold, j, h.unhealthySince))
  {
    if ps != [] {
      var n := |ps| - 1;
      var g, h := Polled(threshold, ps[..n]), Polled(threshold, ps);
      CircuitHistory(threshold, ps[..n]);
      if !h.healthy && !g.healthy {
        var j: nat :| OpenedAt(ps[..n], threshold, j, g.unhealthySince);
        assert ps[..n][..j + 1] == ps[..j + 1];
        assert OpenedAt(ps, threshold, j, h.unhealthySince);
      } else if !h.healthy {
        assert Failing(ps, g.failures + 1);
        assert ps[..n + 1] == ps;
        assert OpenedAt(ps, threshold, n, h.unhealthySince);
      }
    }
  }

  /** A healthy circuit has fewer failures than the threshold. An open one opened
      at a poll whose `/health` failed, as the last of at least `threshold`
      failed discoveries in a row, at the time recorded; and no poll since then
      answered either way. */
  lemma OpensOnlyWhenDead(threshold: int, ps: seq<Poll>)
    ensures var h := Polled(threshold, ps);
            && (h.healthy ==> h.failures < Need(threshold))
            && (!h.healthy ==> exists j: nat :: OpenedAt(ps, threshold, j, h.unhealthySince))
  {
    CircuitHistory(threshold, ps);
  }

  /** How many discoveries in a row have failed since the last one that succeeded,
      that found the circuit open, or after which `/health` was asked. */
  function FailedInRow(threshold: int, ps: seq<Poll>): nat {
    if ps == [] then 0
    else
      var n := |ps| - 1;
      var k := FailedInRow(threshold, ps[..n]) + 1;
      if ps[n].ok || !Polled(threshold, ps[..n]).healthy || k >= Need(threshold) then 0 else k
  }

  lemma {:induction false} FailuresAreCounted(threshold: int, ps: seq<Poll>)
    ensures Polled(threshold, ps).healthy ==> Polled(threshold, ps).failures == FailedInRow(threshold, ps)
  {
    if ps != [] { FailuresAreCounted(threshold, ps[..|ps| - 1]); }
  }

  /** A closed circuit opens at a poll if and only if its discovery fails, that is
      the threshold's worth of failures in a row, and `/health` fails too; then the
      poll's time is recorded. */
  lemma OpensExactly(threshold: int, ps: seq<Poll>, p: Poll)
    requires Polled(threshold, ps).healthy
    ensures var h := Polled(threshold, ps + [p]);
            && (!h.healthy <==> !p.ok && !p.alive && FailedInRow(threshold, ps) + 1 >= Need(threshold))
            && (!h.healthy ==> h.unhealthySince == Some(p.now))
  {
    assert (ps + [p])[..|ps|] == ps;
    FailuresAreCounted(threshold, ps);
  }

  predicate Light(p: Poll) { p.ok || p.alive }

  /** The circuit is open after each of these polls. */
  predicate OpenThrough(threshold: int, ps: seq<Poll>, more: seq<Poll>) {
    more == [] ||
    (OpenThrough(threshold, ps, more[..|more| - 1]) && !Polled(threshold, ps + more).healthy)
  }

  /** An open circuit stays open exactly as long as there is no sign of life: the
      first good discovery or `/health` closes it, and nothing else does. */
  lemma {:induction false} OpenWhileDark(threshold: int, ps: seq<Poll>, more: seq<Poll>)
    requires !Polled(threshold, ps).healthy
    ensures OpenThrough(threshold, ps, more) <==> forall i :: 0 <= i < |more| ==> !Light(more[i])
  {
    if more == [] {
      assert ps + more == ps;
    } else {
      var n := |more| - 1;
      OpenWhileDark(threshold, ps, more[..n]);
      assert (ps + more)[..|ps| + n] == ps + more[..n];
      assert more == more[..n] + [more[n]];
      if n > 0 && OpenThrough(threshold, ps, more[..n]) {
        assert !Polled(threshold, ps + more[..n]).healthy;
      } else if n == 0 {
        assert ps + more[..0] == ps;
      }
    }
  }

  /** And a run of `threshold` polls without a sign of life does open it, so a
      dead endpoint cannot hide. */
  lemma DeadIsFound(threshold: int, ps: seq<Poll>)
    requires Dark(ps, Need(threshold))
    ensures !Polled(threshold, ps).healthy
  {
    DarkCounts(threshold, ps, Need(threshold));
  }

  /** `n` dark polls leave it open, or with at least `n` failures counted. */
  lemma {:induction false} DarkCounts(threshold: int, ps: seq<Poll>, n: nat)
    requires Dark(ps, n)
    ensures var h := Polled(threshold, ps); !h.healthy || (n <= h.failures && h.failures < Need(threshold))
  {
    CircuitHistory(threshold, ps);
    if n > 0 {
      var m := |ps| - 1;
      assert Dark(ps[..m], n - 1) by {
        forall i | m - (n - 1) <= i < m && i >= 0 ensures !ps[..m][i].ok && !ps[..m][i].alive { assert !ps[i].ok; }
      }
      DarkCounts(threshold, ps[..m], n - 1);
    }
  }
}
