/** The verdict stated on the sampled numbers alone, and where the numbers come
    from: the window, the ring and the scrape. */
module GoodputNumbers {
  import opened Prelude
  import opened Seqs
  import opened Goodput
  import opened GoodputRuns
  import opened GoodputLaws
  import Scrape

  // ------------------------------------------------------------- the verdict

  /** A ceiling is in force. */
  predicate On(ceiling: Option<real>) {
    ceiling.Some? && ceiling.value > 0.0
  }

  predicate Configured(t: Thresholds) {
    && t.minRunning >= 1 && t.sustain >= 1
    && (On(t.maxIterationRate) || On(t.maxGenerationTps) || On(t.maxPrefillTps) || t.busyMin > 0.0)
  }

  predicate LongWindow(win: seq<Sample>) {
    |win| >= 2 && win[|win| - 1].ts - win[0].ts >= 5.0
  }

  /** No counter that only grows goes down between neighbours that both have it. */
  predicate NeverDrops(win: seq<Sample>, k: Key) {
    forall i :: 0 < i < |win| && k in win[i - 1].values && k in win[i].values ==>
                  win[i - 1].values[k] <= win[i].values[k]
  }

  predicate Everywhere(win: seq<Sample>, k: Key) {
    forall i :: 0 <= i < |win| ==> k in win[i].values
  }

  /** Everything the configured rule needs can be seen. */
  predicate Sees(win: seq<Sample>, t: Thresholds) {
    && Configured(t) && LongWindow(win)
    && NeverDrops(win, ITERATIONS) && NeverDrops(win, GENERATION) && NeverDrops(win, PROMPT)
    && Everywhere(win, RUNNING)
    && (On(t.maxIterationRate) ==> Everywhere(win, ITERATIONS))
    && (On(t.maxGenerationTps) ==> Everywhere(win, GENERATION))
    && (On(t.maxPrefillTps) ==> Everywhere(win, PROMPT))
    && (t.busyMin > 0.0 ==> Everywhere(win, Busy))
  }

  /** By how much a counter went up from the first sample to the last. */
  function Grew(win: seq<Sample>, k: Key): real
    requires win != [] && k in win[0].values && k in win[|win| - 1].values
  {
    win[|win| - 1].values[k] - win[0].values[k]
  }

  function TotalOf(win: seq<Sample>, k: Key): real
    requires Everywhere(win, k)
  {
    if win == [] then 0.0
    else assert Everywhere(win[1..], k) by { TailEverywhere(win, k); } win[0].values[k] + TotalOf(win[1..], k)
  }

  lemma TailEverywhere(win: seq<Sample>, k: Key)
    requires win != [] && Everywhere(win, k)
    ensures Everywhere(win[1..], k)
  {
    forall i | 0 <= i < |win[1..]| ensures k in win[1..][i].values { assert k in win[i + 1].values; }
  }

  function Width(win: seq<Sample>): real
    requires win != []
  {
    win[|win| - 1].ts - win[0].ts
  }

  /** Busy throughout and producing almost nothing: fewer iterations and prompt
      tokens than their ceilings allow for the span, fewer generated tokens than
      the ceiling allows for the span and the mean number running, and every busy
      reading under the floor. */
  predicate Stagnant(win: seq<Sample>, t: Thresholds)
    requires Sees(win, t)
  {
    && (forall i :: 0 <= i < |win| ==> win[i].values[RUNNING] >= t.minRunning as real)
    && (On(t.maxIterationRate) ==> Grew(win, ITERATIONS) < t.maxIterationRate.value * Width(win))
    && (On(t.maxPrefillTps) ==> Grew(win, PROMPT) < t.maxPrefillTps.value * Width(win))
    && (On(t.maxGenerationTps) ==>
          Grew(win, GENERATION) * (|win| as real)
          < t.maxGenerationTps.value * (TotalOf(win, RUNNING) * Width(win)))
    && (t.busyMin > 0.0 ==> forall i :: 0 <= i < |win| ==> win[i].values[Busy] < t.busyMin)
  }

  lemma ConfiguredIsArmed(t: Thresholds)
    ensures t.Armed() <==> Configured(t)
    ensures t.Declares(Iteration) <==> On(t.maxIterationRate)
    ensures t.Declares(Generating) <==> On(t.maxGenerationTps)
    ensures t.Declares(Prefill) <==> On(t.maxPrefillTps)
    ensures t.Declares(EngineIdle) <==> t.busyMin > 0.0
  {}

  lemma DropsAreResets(win: seq<Sample>)
    ensures Reset(win) <==> !(NeverDrops(win, ITERATIONS) && NeverDrops(win, GENERATION) && NeverDrops(win, PROMPT))
  {
    assert CUMULATIVE[0] == ITERATIONS && CUMULATIVE[1] == GENERATION && CUMULATIVE[2] == PROMPT;
    if Reset(win) {
      var k, i :| k in CUMULATIVE && 0 < i < |win| && Drops(win, k, i);
      assert !NeverDrops(win, k);
    } else {
      forall k | k in CUMULATIVE ensures NeverDrops(win, k) {
        forall i | 0 < i < |win| && k in win[i - 1].values && k in win[i].values
          ensures win[i - 1].values[k] <= win[i].values[k]
        {
          assert !Drops(win, k, i);
        }
      }
    }
  }

  lemma SeesIsEvaluable(win: seq<Sample>, t: Thresholds)
    ensures Evaluable(win, t) <==> Sees(win, t)
  {
    hide Reset, NeverDrops, Needs, Thresholds.Declares;
    ConfiguredIsArmed(t);
    DropsAreResets(win);
    NeedsByClause(t);
    assert forall k :: Present(win, k) <==> Everywhere(win, k);
    assert Needs(t, RUNNING);
    assert t.Declares(Iteration) ==> Needs(t, ITERATIONS);
    assert t.Declares(Generating) ==> Needs(t, GENERATION);
    assert t.Declares(Prefill) ==> Needs(t, PROMPT);
    assert t.Declares(EngineIdle) ==> Needs(t, Busy);
  }

  lemma {:induction false} SumIsTotal(win: seq<Sample>, k: Key)
    requires Everywhere(win, k)
    ensures SumOf(win, k) == TotalOf(win, k)
  {
    if win != [] {
      TailEverywhere(win, k);
      SumIsTotal(win[1..], k);
      SumCons(win, k);
    }
  }

  lemma {:induction false} SumCons(win: seq<Sample>, k: Key)
    requires win != []
    ensures SumOf(win, k) == Level(win[0], k) + SumOf(win[1..], k)
  {
    var n := |win| - 1;
    if n > 0 {
      SumCons(win[..n], k);
      assert win[..n][1..] == win[1..][..n - 1];
      assert win[1..][n - 1] == win[n];
    } else {
      assert win[..0] == [] && win[1..] == [];
    }
  }

  lemma {:induction false} MaxBounds(win: seq<Sample>, k: Key, x: real)
    requires win != []
    ensures MaxOf(win, k) < x <==> forall i :: 0 <= i < |win| ==> Level(win[i], k) < x
  {
    var n := |win| - 1;
    if n > 0 {
      MaxBounds(win[..n], k, x);
      assert win == win[..n] + [win[n]];
    }
  }

  lemma PerSecond(grew: real, span: real, ceiling: real)
    requires span > 0.0
    ensures grew / span < ceiling <==> grew < ceiling * span
  {
    var q := grew / span;
    assert grew == q * span;
    if q < ceiling { assert (ceiling - q) * span > 0.0; } else { assert (q - ceiling) * span >= 0.0; }
  }

  lemma PerRunning(grew: real, span: real, total: real, n: real, ceiling: real)
    requires span > 0.0 && total > 0.0 && n > 0.0
    ensures grew / span / (total / n) < ceiling <==> grew * n < ceiling * (total * span)
  {
    PerSecond(grew / span, total / n, ceiling);
    var c := ceiling * (total / n);
    PerSecond(grew, span, c);
    assert c * span * n == ceiling * (total * span) by { Regroup(ceiling, total, n, span); }
    if grew < c * span { assert (c * span - grew) * n > 0.0; } else { assert (grew - c * span) * n >= 0.0; }
  }

  lemma Regroup(ceiling: real, total: real, n: real, span: real)
    requires n > 0.0
    ensures ceiling * (total / n) * span * n == ceiling * (total * span)
  {
    var m := total / n;
    assert m * n == total;
    assert ceiling * m * span * n == ceiling * (m * n) * span;
    assert ceiling * total * span == ceiling * (total * span);
  }

  lemma {:induction false} TotalAtLeast(win: seq<Sample>, x: real)
    requires Everywhere(win, RUNNING) && win != [] && x > 0.0
    requires forall i :: 0 <= i < |win| ==> win[i].values[RUNNING] >= x
    ensures TotalOf(win, RUNNING) > 0.0
  {
    TailEverywhere(win, RUNNING);
    if |win| > 1 {
      forall i | 0 <= i < |win[1..]| ensures win[1..][i].values[RUNNING] >= x { assert win[i + 1].values[RUNNING] >= x; }
      TotalAtLeast(win[1..], x);
    } else {
      assert win[1..] == [];
    }
  }

  /** The verdict on the sampled numbers: UNKNOWN exactly when something the rule
      needs cannot be seen, COLLAPSED exactly when everything is seen and the
      engine is stuck, HEALTHY otherwise. */
  lemma VerdictByNumbers(win: seq<Sample>, t: Thresholds)
    ensures OutcomeOf(win, t) ==
              if !Sees(win, t) then Unknown else if Stagnant(win, t) then Collapsed else Healthy
  {
    hide Evaluable, Sees;
    SeesIsEvaluable(win, t);
    if Sees(win, t) {
      StalledByNumbers(win, t);
    }
  }

  lemma StalledByNumbers(win: seq<Sample>, t: Thresholds)
    requires Sees(win, t)
    ensures win != [] && Span(win) != 0.0
    ensures Occupied(win, t) && Stalled(win, t) <==> Stagnant(win, t)
  {
    hide NeverDrops, MaxOf, SumOf, TotalOf, Thresholds.Declares, Thresholds.Ceiling;
    ConfiguredIsArmed(t);
    CeilingsAre(t);
    var span := Span(win);
    if On(t.maxIterationRate) { PerSecond(Grew(win, ITERATIONS), span, t.maxIterationRate.value); }
    if On(t.maxPrefillTps) { PerSecond(Grew(win, PROMPT), span, t.maxPrefillTps.value); }
    if t.busyMin > 0.0 { MaxBounds(win, Busy, t.busyMin); }
    SumIsTotal(win, RUNNING);
    if Occupied(win, t) {
      TotalAtLeast(win, t.minRunning as real);
      if On(t.maxGenerationTps) {
        GeneratingByNumbers(win, t.maxGenerationTps.value);
      }
      ClausesAre(win, t);
    }
  }

  lemma CeilingsAre(t: Thresholds)
    ensures t.Declares(Iteration) ==> t.Ceiling(Iteration) == t.maxIterationRate
    ensures t.Declares(Generating) ==> t.Ceiling(Generating) == t.maxGenerationTps
    ensures t.Declares(Prefill) ==> t.Ceiling(Prefill) == t.maxPrefillTps
    ensures t.Declares(EngineIdle) ==> t.Ceiling(EngineIdle) == Some(t.busyMin)
  {}

  lemma GeneratingByNumbers(win: seq<Sample>, ceiling: real)
    requires LongWindow(win) && Everywhere(win, RUNNING) && Everywhere(win, GENERATION)
    requires TotalOf(win, RUNNING) > 0.0
    ensures Span(win) > 0.0
    ensures ClauseValue(win, Generating) < ceiling <==>
              Grew(win, GENERATION) * (|win| as real) < ceiling * (TotalOf(win, RUNNING) * Width(win))
  {
    hide SumOf, TotalOf;
    SumIsTotal(win, RUNNING);
    var total, n := TotalOf(win, RUNNING), |win| as real;
    PerRunning(Grew(win, GENERATION), Span(win), total, n, ceiling);
    PositiveQuotient(total, n);
  }

  lemma PositiveQuotient(a: real, b: real)
    requires a > 0.0 && b > 0.0
    ensures a / b > 0.0
  {}

  lemma ClausesAre(win: seq<Sample>, t: Thresholds)
    requires win != [] && Span(win) != 0.0
    ensures Stalled(win, t) <==>
              && (t.Declares(Iteration) ==> ClauseValue(win, Iteration) < t.Ceiling(Iteration).value)
              && (t.Declares(Generating) ==> ClauseValue(win, Generating) < t.Ceiling(Generating).value)
              && (t.Declares(Prefill) ==> ClauseValue(win, Prefill) < t.Ceiling(Prefill).value)
              && (t.Declares(EngineIdle) ==> ClauseValue(win, EngineIdle) < t.Ceiling(EngineIdle).value)
  {
    hide ClauseValue, Thresholds.Ceiling;
    if && (t.Declares(Iteration) ==> ClauseValue(win, Iteration) < t.Ceiling(Iteration).value)
       && (t.Declares(Generating) ==> ClauseValue(win, Generating) < t.Ceiling(Generating).value)
       && (t.Declares(Prefill) ==> ClauseValue(win, Prefill) < t.Ceiling(Prefill).value)
       && (t.Declares(EngineIdle) ==> ClauseValue(win, EngineIdle) < t.Ceiling(EngineIdle).value)
    {
      forall c: Clause | t.Declares(c) ensures ClauseValue(win, c) < t.Ceiling(c).value {
        match c { case Iteration => case Generating => case Prefill => case EngineIdle => }
      }
    }
  }

  /** An engine whose iteration counter grew by at least the ceiling times the span
      is never called collapsed, whatever else is seen. */
  lemma WorkingIsNotCollapsed(win: seq<Sample>, t: Thresholds)
    requires win != [] && ITERATIONS in win[0].values && ITERATIONS in win[|win| - 1].values
    requires On(t.maxIterationRate) && Grew(win, ITERATIONS) >= t.maxIterationRate.value * Width(win)
    ensures OutcomeOf(win, t) != Collapsed
  {
    VerdictByNumbers(win, t);
  }

  // -------------------------------------------------- where the numbers come from

  function Within(now: real, width: real): Sample -> bool {
    (s: Sample) => now - s.ts <= width
  }

  /** The window is the samples that are recent enough, in the order of the ring. */
  lemma {:induction false} WindowIsFilter(ring: seq<Sample>, now: real, width: real)
    ensures InWindow(ring, now, width) == Filter(Within(now, width), ring)
  {
    if ring != [] { WindowIsFilter(ring[..|ring| - 1], now, width); }
  }

  /** All samples an endpoint has had while it was configured. */
  ghost function Samples(ticks: seq<Tick>): seq<Sample> {
    if ticks == [] then []
    else
      var k := ticks[|ticks| - 1];
      Samples(ticks[..|ticks| - 1]) + (if k.t.Armed() then [SampleOf(k.probe, k.t, k.now)] else [])
  }

  /** How many of them the ring should still hold: all up to its capacity, but only
      the newest after a counter was seen to drop. */
  ghost function Remembered(ticks: seq<Tick>, capacity: nat, width: real): nat
    requires capacity > 0
  {
    if ticks == [] then 0
    else
      var n, k := |ticks| - 1, ticks[|ticks| - 1];
      var before := Remembered(ticks[..n], capacity, width);
      if !k.t.Armed() then before
      else
        var win := WindowAt(RunOf(ticks[..n], capacity, width).state, k, capacity, width);
        if LongWindow(win) && Reset(win) then 1 else Min(capacity, before + 1)
  }

  lemma AppendedIsSuffix(all: seq<Sample>, m: nat, s: Sample, capacity: nat)
    requires capacity > 0 && m <= |all| && m <= capacity
    ensures var n := Min(capacity, m + 1);
            Appended(all[|all| - m..], s, capacity) == (all + [s])[|all| + 1 - n..]
  {
    if m < capacity {
      assert all[|all| - m..] + [s] == (all + [s])[|all| - m..];
    } else {
      var ring := all[|all| - m..];
      assert ring[1..] == all[|all| - m + 1..];
      assert all[|all| - m + 1..] + [s] == (all + [s])[|all| - m + 1..];
    }
  }

  /** Over every run the ring is exactly the newest samples, that many of them. */
  lemma {:induction false} RingIsNewest(ticks: seq<Tick>, capacity: nat, width: real)
    requires capacity > 0
    ensures var m, all := Remembered(ticks, capacity, width), Samples(ticks);
            && m <= |all| && m <= capacity
            && RunOf(ticks, capacity, width).state.ring == all[|all| - m..]
  {
    hide SampleOf, OutcomeOf, LatchStep, Reset, Appended, InWindow;
    if ticks != [] {
      var n, k := |ticks| - 1, ticks[|ticks| - 1];
      RingIsNewest(ticks[..n], capacity, width);
      var m, all := Remembered(ticks[..n], capacity, width), Samples(ticks[..n]);
      if k.t.Armed() {
        var s := SampleOf(k.probe, k.t, k.now);
        AppendedIsSuffix(all, m, s, capacity);
        var ring := Observing(RunOf(ticks[..n], capacity, width).state, k, capacity);
        assert ring != [] && ring[|ring| - 1] == s;
        assert (all + [s])[|all|..] == [s];
      }
    }
  }

  /** A sample holds a counter exactly when the scrape supplied it, and the busy
      gauge exactly when the endpoint asks for it and it answered; each with the
      value it was read with. */
  lemma SampleMeans(p: Probe, t: Thresholds, now: real)
    ensures var x := SampleOf(p, t, now);
            && x.ts == now
            && (forall c: Scrape.Counter ::
                  && (Counted(c) in x.values <==> p.body.Some? && Scrape.Scraped(p.body.value, c).Some?)
                  && (Counted(c) in x.values ==> x.values[Counted(c)] == Scrape.Scraped(p.body.value, c).value as real))
            && (Busy in x.values <==> t.busyMin > 0.0 && p.busy.Some?)
            && (Busy in x.values ==> x.values[Busy] == p.busy.value)
  {
    hide Scrape.Scraped;
    AllKeys();
  }

  /** A tick of an endpoint that is not configured touches nothing. */
  lemma UnconfiguredIsUntouched(s: State, k: Tick, capacity: nat, width: real)
    requires capacity > 0 && !Configured(k.t)
    ensures Sampled(s, k, capacity, width) == (s, NoAction)
  {
    ConfiguredIsArmed(k.t);
  }
}
