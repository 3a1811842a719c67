/** The goodput-collapse detector of `goodput.py`: the sample ring, the
    three-valued verdict and the trip latch.  Blindness must never read as
    collapse. */
module Goodput {
  import opened Prelude
  import Scrape

  // -------------------------------------------------------------- vocabulary

  datatype Key = Counted(c: Scrape.Counter) | Busy

  const RUNNING := Counted(Scrape.Running)
  const ITERATIONS := Counted(Scrape.Iterations)
  const GENERATION := Counted(Scrape.Generation)
  const PROMPT := Counted(Scrape.Prompt)

  /** The counters that only grow while the backend lives. */
  const CUMULATIVE: seq<Key> := [ITERATIONS, GENERATION, PROMPT]

  /** One scrape; a key the scrape could not supply is not in the map. */
  datatype Sample = Sample(ts: real, values: map<Key, real>)

  datatype Outcome = Healthy | Collapsed | Unknown

  datatype Clause = Iteration | Generating | Prefill | EngineIdle

  datatype Thresholds = Thresholds(
    minRunning: int, sustain: int,
    maxIterationRate: Option<real>, maxGenerationTps: Option<real>, maxPrefillTps: Option<real>,
    busyMin: real, recovery: int, maxHold: real)
  {
    /** The bound a clause's value must stay under, if the clause is declared. */
    function Ceiling(c: Clause): Option<real> {
      var raw := match c
        case Iteration => maxIterationRate
        case Generating => maxGenerationTps
        case Prefill => maxPrefillTps
        case EngineIdle => Some(busyMin);
      if raw.Some? && raw.value > 0.0 then raw else None
    }

    predicate Declares(c: Clause) { Ceiling(c).Some? }

    predicate Armed() {
      minRunning >= 1 && sustain >= 1 &&
      (Declares(Iteration) || Declares(Generating) || Declares(Prefill) || Declares(EngineIdle))
    }

    function Recovery(): int { if recovery == 0 then RECOVERY_EVALUATIONS else recovery }

    function MaxHold(): real { if maxHold == 0.0 then MAX_HOLD_S else maxHold }
  }

  const MIN_SAMPLES := 2
  const MIN_WINDOW_S := 5.0
  const RECOVERY_EVALUATIONS := 2
  const MAX_HOLD_S := 300.0

  /** In the order the rule lists them. */
  const CLAUSES: seq<Clause> := [Iteration, Generating, Prefill, EngineIdle]

  /** The counters a clause reads. */
  function Reads(c: Clause): set<Key> {
    match c
    case Iteration => {ITERATIONS}
    case Generating => {GENERATION, RUNNING}
    case Prefill => {PROMPT}
    case EngineIdle => {Busy}
  }

  /** The counters a configuration needs: occupancy, and every declared clause. */
  ghost predicate Needs(t: Thresholds, k: Key) {
    k == RUNNING || exists c: Clause :: t.Declares(c) && k in Reads(c)
  }

  // ----------------------------------------------------------- specification

  function InWindow(ring: seq<Sample>, now: real, width: real): seq<Sample> {
    if ring == [] then []
    else
      var n := |ring| - 1;
      InWindow(ring[..n], now, width) + (if now - ring[n].ts <= width then [ring[n]] else [])
  }

  function Span(win: seq<Sample>): real
    requires win != []
  {
    win[|win| - 1].ts - win[0].ts
  }

  /** Two neighbouring samples both publish the counter and it went down. */
  predicate Drops(win: seq<Sample>, k: Key, i: int)
    requires 0 < i < |win|
  {
    k in win[i - 1].values && k in win[i].values && win[i].values[k] < win[i - 1].values[k]
  }

  ghost predicate Reset(win: seq<Sample>) {
    exists k, i :: k in CUMULATIVE && 0 < i < |win| && Drops(win, k, i)
  }

  predicate Present(win: seq<Sample>, k: Key) {
    forall i :: 0 <= i < |win| ==> k in win[i].values
  }

  /** Every counter the configuration needs is in every sample. */
  ghost predicate Observed(win: seq<Sample>, t: Thresholds) {
    forall k :: Needs(t, k) ==> Present(win, k)
  }

  function Level(s: Sample, k: Key): real {
    if k in s.values then s.values[k] else 0.0
  }

  function SumOf(win: seq<Sample>, k: Key): real {
    if win == [] then 0.0 else SumOf(win[..|win| - 1], k) + Level(win[|win| - 1], k)
  }

  function MinOf(win: seq<Sample>, k: Key): real
    requires win != []
  {
    var n := |win| - 1;
    if n == 0 then Level(win[0], k) else RMin(MinOf(win[..n], k), Level(win[n], k))
  }

  function MaxOf(win: seq<Sample>, k: Key): real
    requires win != []
  {
    var n := |win| - 1;
    if n == 0 then Level(win[0], k) else RMax(MaxOf(win[..n], k), Level(win[n], k))
  }

  function MeanOf(win: seq<Sample>, k: Key): real
    requires win != []
  {
    SumOf(win, k) / (|win| as real)
  }

  /** The change of a cumulative counter per second. */
  function RateOf(win: seq<Sample>, k: Key): real
    requires win != [] && Span(win) != 0.0
  {
    (Level(win[|win| - 1], k) - Level(win[0], k)) / Span(win)
  }

  /** The number a clause compares with its ceiling. */
  function ClauseValue(win: seq<Sample>, c: Clause): real
    requires win != [] && Span(win) != 0.0
  {
    match c
    case Iteration => RateOf(win, ITERATIONS)
    case Generating =>
      var mean := MeanOf(win, RUNNING);
      if mean == 0.0 then 0.0 else RateOf(win, GENERATION) / mean
    case Prefill => RateOf(win, PROMPT)
    case EngineIdle => MaxOf(win, Busy)
  }

  /** Everything the rule needs can be seen. */
  ghost predicate Evaluable(win: seq<Sample>, t: Thresholds) {
    && t.Armed() && |win| >= MIN_SAMPLES && Span(win) >= MIN_WINDOW_S
    && !Reset(win) && Observed(win, t)
  }

  /** Busy in every sample. */
  predicate Occupied(win: seq<Sample>, t: Thresholds) {
    forall i :: 0 <= i < |win| ==> Level(win[i], RUNNING) >= t.minRunning as real
  }

  /** Every declared clause is under its ceiling. */
  ghost predicate Stalled(win: seq<Sample>, t: Thresholds)
    requires win != [] && Span(win) != 0.0
  {
    forall c: Clause :: t.Declares(c) ==> ClauseValue(win, c) < t.Ceiling(c).value
  }

  /** The verdict, as the documentation defines it. */
  ghost function OutcomeOf(win: seq<Sample>, t: Thresholds): Outcome {
    if !Evaluable(win, t) then Unknown
    else if Occupied(win, t) && Stalled(win, t) then Collapsed
    else Healthy
  }

  // ------------------------------------------------------------- arithmetic

  lemma {:induction false} MinBounds(win: seq<Sample>, k: Key, x: real)
    requires win != []
    ensures MinOf(win, k) >= x <==> forall i :: 0 <= i < |win| ==> Level(win[i], k) >= x
  {
    var n := |win| - 1;
    if n > 0 {
      MinBounds(win[..n], k, x);
      assert win == win[..n] + [win[n]];
    }
  }

  lemma {:induction false} SumAtLeast(win: seq<Sample>, k: Key, x: real)
    requires forall i :: 0 <= i < |win| ==> Level(win[i], k) >= x
    ensures SumOf(win, k) >= x * (|win| as real)
  {
    if win != [] {
      var n := |win| - 1;
      SumAtLeast(win[..n], k, x);
      assert x * (n as real) + x == x * (|win| as real);
    }
  }

  lemma Quotient(sum: real, n: real, x: real)
    requires n > 0.0 && sum >= x * n
    ensures sum / n >= x
  {}

  /** The mean is at least the minimum, so at an occupied endpoint there is
      always a busy slot to divide by. */
  lemma MeanAtLeast(win: seq<Sample>, t: Thresholds)
    requires win != [] && Occupied(win, t)
    ensures MeanOf(win, RUNNING) >= t.minRunning as real
  {
    SumAtLeast(win, RUNNING, t.minRunning as real);
    Quotient(SumOf(win, RUNNING), |win| as real, t.minRunning as real);
  }

  // ---------------------------------------------------------------- verdicts

  datatype Reason =
    | NotConfigured | NoSamples | TooFewSamples | WindowTooShort | CounterReset
    | CountersAbsent(keys: seq<Key>) | RateUnavailable(c: Clause) | Judged

  /** One evaluation with its evidence. */
  datatype Verdict = Verdict(
    outcome: Outcome, reason: Reason, occupancyHeld: bool, held: seq<Clause>, cleared: seq<Clause>)

  /** The number of samples and their span suffice. */
  predicate LongEnough(win: seq<Sample>) {
    |win| >= MIN_SAMPLES && Span(win) >= MIN_WINDOW_S
  }

  /** The reason a verdict must carry: the first obstacle to judging the ring, in
      the order in which they are looked for; and exactly the counters that are
      needed and missing. */
  ghost predicate ReasonFits(ring: seq<Sample>, win: seq<Sample>, t: Thresholds, reason: Reason) {
    if !t.Armed() then reason == NotConfigured
    else if ring == [] then reason == NoSamples
    else if |win| < MIN_SAMPLES then reason == TooFewSamples
    else if Span(win) < MIN_WINDOW_S then reason == WindowTooShort
    else if Reset(win) then reason == CounterReset
    else if !Observed(win, t) then
      reason.CountersAbsent? && forall k :: k in reason.keys <==> Needs(t, k) && !Present(win, k)
    else reason == Judged
  }

  /** The evidence of a judged window: whether it was occupied throughout, and if
      so which declared clauses were under their ceilings and which were not. */
  ghost predicate EvidenceFits(win: seq<Sample>, t: Thresholds, v: Verdict)
    requires LongEnough(win)
  {
    && v.occupancyHeld == Occupied(win, t)
    && (forall c :: c in v.held <==>
          v.occupancyHeld && t.Declares(c) && ClauseValue(win, c) < t.Ceiling(c).value)
    && (forall c :: c in v.cleared <==>
          v.occupancyHeld && t.Declares(c) && ClauseValue(win, c) >= t.Ceiling(c).value)
  }

  /** A whole verdict on a ring: outcome, reason and evidence. */
  ghost predicate Fits(ring: seq<Sample>, win: seq<Sample>, t: Thresholds, v: Verdict) {
    && v.outcome == OutcomeOf(win, t)
    && ReasonFits(ring, win, t, v.reason)
    && (v.reason == Judged && LongEnough(win) ==> EvidenceFits(win, t, v))
    && (v.reason != Judged ==> !v.occupancyHeld && v.held == [] && v.cleared == [])
  }

  function Blind(reason: Reason): Verdict { Verdict(Unknown, reason, false, [], []) }

  method SelectWindow(ring: seq<Sample>, now: real, width: real) returns (win: seq<Sample>)
    ensures win == InWindow(ring, now, width)
  {
    win := [];
    for i := 0 to |ring|
      invariant win == InWindow(ring[..i], now, width)
    {
      assert ring[..i + 1][..i] == ring[..i];
      if now - ring[i].ts <= width {
        win := win + [ring[i]];
      }
    }
    assert ring[..|ring|] == ring;
  }

  /** `_reset_detected`: an absent sample breaks the chain. */
  method ResetDetected(win: seq<Sample>) returns (r: bool)
    ensures r <==> Reset(win)
  {
    for j := 0 to |CUMULATIVE|
      invariant forall m, i :: 0 <= m < j && 0 < i < |win| ==> !Drops(win, CUMULATIVE[m], i)
    {
      var k := CUMULATIVE[j];
      var prev: Option<real> := None;
      for n := 0 to |win|
        invariant forall i :: 0 < i < n ==> !Drops(win, k, i)
        invariant n == 0 ==> prev.None?
        invariant n > 0 ==> prev == if k in win[n - 1].values then Some(win[n - 1].values[k]) else None
      {
        if k !in win[n].values {
          prev := None;
          continue;
        }
        if prev.Some? && win[n].values[k] < prev.value {
          assert Drops(win, k, n) && k in CUMULATIVE;
          return true;
        }
        prev := Some(win[n].values[k]);
      }
    }
    r := false;
  }

  /** The counters that occupancy and the declared clauses need, in rule order. */
  method NeededKeys(t: Thresholds) returns (keys: seq<Key>)
    ensures forall k :: k in keys <==> Needs(t, k)
  {
    keys := [RUNNING];
    if t.Declares(Iteration) { keys := keys + [ITERATIONS]; }
    if t.Declares(Generating) { keys := keys + [GENERATION, RUNNING]; }
    if t.Declares(Prefill) { keys := keys + [PROMPT]; }
    if t.Declares(EngineIdle) { keys := keys + [Busy]; }
    NeedsByClause(t);
  }

  lemma NeedsByClause(t: Thresholds)
    ensures forall k :: Needs(t, k) <==>
              || k == RUNNING || (k == ITERATIONS && t.Declares(Iteration))
              || (k == GENERATION && t.Declares(Generating)) || (k == PROMPT && t.Declares(Prefill))
              || (k == Busy && t.Declares(EngineIdle))
  {
    hide Thresholds.Declares;
    forall k ensures Needs(t, k) <==>
              || k == RUNNING || (k == ITERATIONS && t.Declares(Iteration))
              || (k == GENERATION && t.Declares(Generating)) || (k == PROMPT && t.Declares(Prefill))
              || (k == Busy && t.Declares(EngineIdle))
    {
      assert ITERATIONS in Reads(Iteration) && GENERATION in Reads(Generating)
          && PROMPT in Reads(Prefill) && Busy in Reads(EngineIdle);
    }
  }

  /** `_missing_counters` */
  method MissingCounters(win: seq<Sample>, t: Thresholds) returns (missing: seq<Key>)
    ensures missing == [] <==> Observed(win, t)
    ensures forall k :: k in missing <==> Needs(t, k) && !Present(win, k)
  {
    hide Needs, Present;
    var keys := NeededKeys(t);
    missing := [];
    for i := 0 to |keys|
      invariant missing == [] <==> forall j :: 0 <= j < i ==> Present(win, keys[j])
      invariant forall k :: k in missing <==> k in keys[..i] && !Present(win, k)
    {
      assert keys[..i + 1] == keys[..i] + [keys[i]];
      if !Present(win, keys[i]) && keys[i] !in missing {
        missing := missing + [keys[i]];
      }
    }
    assert keys[..|keys|] == keys;
    assert forall k :: Needs(t, k) ==> exists j :: 0 <= j < |keys| && keys[j] == k;
  }

  /** The number a clause compares, as the code computes it: `None` when one of
      its inputs is absent or there is no busy slot to divide by. */
  function Reading(win: seq<Sample>, c: Clause): Option<real>
    requires win != [] && Span(win) > 0.0
  {
    match c
    case Iteration => RateIf(win, ITERATIONS)
    case Generating =>
      var rate, mean := RateIf(win, GENERATION), MeanOf(win, RUNNING);
      if rate.None? || mean <= 0.0 then None else Some(rate.value / mean)
    case Prefill => RateIf(win, PROMPT)
    case EngineIdle => if Present(win, Busy) then Some(MaxOf(win, Busy)) else None
  }

  function RateIf(win: seq<Sample>, k: Key): Option<real>
    requires win != [] && Span(win) > 0.0
  {
    if k in win[0].values && k in win[|win| - 1].values then Some(RateOf(win, k)) else None
  }

  /** At an evaluable, occupied endpoint every declared clause has its number. */
  lemma ReadingAvailable(win: seq<Sample>, t: Thresholds, c: Clause)
    requires Evaluable(win, t) && Occupied(win, t) && t.Declares(c)
    ensures Reading(win, c) == Some(ClauseValue(win, c))
  {
    hide Reset, MeanOf, RateOf, MaxOf;
    MeanAtLeast(win, t);
    forall k | k in Reads(c) ensures Present(win, k) {
      assert Needs(t, k);
    }
    assert MeanOf(win, RUNNING) >= 1.0;
    match c {
      case Iteration => assert ITERATIONS in Reads(c);
      case Generating => assert GENERATION in Reads(c);
      case Prefill => assert PROMPT in Reads(c);
      case EngineIdle => assert Busy in Reads(c);
    }
  }

  /** `evaluate`, without the clearing of the ring. */
  method Judge(ring: seq<Sample>, t: Thresholds, now: real, width: real) returns (v: Verdict)
    ensures Fits(ring, InWindow(ring, now, width), t, v)
    ensures v.outcome == Unknown <==> v.reason != Judged
  {
    hide Reset, Observed, Stalled, Occupied, Reading, ClauseValue, Needs, Present, InWindow;
    if !t.Armed() {
      return Blind(NotConfigured);
    }
    var win := SelectWindow(ring, now, width);
    if ring == [] {
      EmptyRing(now, width);
      return Blind(NoSamples);
    }
    if |win| < MIN_SAMPLES {
      return Blind(TooFewSamples);
    }
    if Span(win) < MIN_WINDOW_S {
      return Blind(WindowTooShort);
    }
    var reset := ResetDetected(win);
    if reset {
      return Blind(CounterReset);
    }
    var missing := MissingCounters(win, t);
    if missing != [] {
      return Blind(CountersAbsent(missing));
    }
    assert Evaluable(win, t) && ReasonFits(ring, win, t, Judged);
    OccupiedByMin(win, t);
    if MinOf(win, RUNNING) < t.minRunning as real {
      return Verdict(Healthy, Judged, false, [], []);
    }
    v := JudgeClauses(win, t);
  }

  lemma EmptyRing(now: real, width: real)
    ensures InWindow([], now, width) == []
  {}

  lemma OccupiedByMin(win: seq<Sample>, t: Thresholds)
    requires win != []
    ensures Occupied(win, t) <==> MinOf(win, RUNNING) >= t.minRunning as real
  {
    MinBounds(win, RUNNING, t.minRunning as real);
  }

  /** The loop over the four clauses. */
  method JudgeClauses(win: seq<Sample>, t: Thresholds) returns (v: Verdict)
    requires Evaluable(win, t) && Occupied(win, t)
    ensures v.reason == Judged && v.occupancyHeld
    ensures v.outcome == if Stalled(win, t) then Collapsed else Healthy
    ensures v.outcome == Collapsed <==> v.cleared == []
    ensures forall c :: c in v.held <==> t.Declares(c) && ClauseValue(win, c) < t.Ceiling(c).value
    ensures forall c :: c in v.cleared <==> t.Declares(c) && ClauseValue(win, c) >= t.Ceiling(c).value
  {
    hide Reset, Observed, Occupied, Reading, ClauseValue;
    var held: seq<Clause>, cleared: seq<Clause> := [], [];
    for i := 0 to |CLAUSES|
      invariant forall c :: c in held <==>
                  c in CLAUSES[..i] && t.Declares(c) && ClauseValue(win, c) < t.Ceiling(c).value
      invariant forall c :: c in cleared <==>
                  c in CLAUSES[..i] && t.Declares(c) && ClauseValue(win, c) >= t.Ceiling(c).value
    {
      var c := CLAUSES[i];
      assert CLAUSES[..i + 1] == CLAUSES[..i] + [c];
      if !t.Declares(c) {
        continue;
      }
      ReadingAvailable(win, t, c);
      var value := Reading(win, c);
      if value.None? {
        assert false;  // the `rate_unavailable` arm
      }
      if value.value < t.Ceiling(c).value {
        held := held + [c];
      } else {
        cleared := cleared + [c];
      }
    }
    AllClauses();
    v := Verdict(if cleared == [] then Collapsed else Healthy, Judged, true, held, cleared);
    if cleared != [] {
      assert cleared[0] in cleared;
    }
  }

  lemma AllClauses()
    ensures CLAUSES[..|CLAUSES|] == CLAUSES && forall c: Clause :: c in CLAUSES
  {
    assert CLAUSES[0] == Iteration && CLAUSES[1] == Generating
        && CLAUSES[2] == Prefill && CLAUSES[3] == EngineIdle;
    forall c: Clause ensures c in CLAUSES {
      match c { case Iteration => case Generating => case Prefill => case EngineIdle => }
    }
  }

  // ------------------------------------------------------------------ latch

  datatype Latch = Latch(collapsedRun: int, healthyRun: int, trippedAt: real, trips: nat)

  const UNLATCHED := Latch(0, 0, 0.0, 0)

  datatype Action = NoAction | Trip | Clear

  /** A held trip is as old as the ceiling allows.  A trip recorded at time zero
      reads as none, as a zero timestamp does in the code. */
  predicate HoldExpired(l: Latch, tripped: bool, t: Thresholds, now: real) {
    tripped && l.trippedAt != 0.0 && now - l.trippedAt >= t.MaxHold()
  }

  /** `step` */
  function LatchStep(l: Latch, o: Outcome, tripped: bool, t: Thresholds, now: real): (Latch, Action) {
    if HoldExpired(l, tripped, t, now) then (l.(collapsedRun := 0, healthyRun := 0, trippedAt := 0.0), Clear)
    else
      match o
      case Collapsed =>
        var run := Min(l.collapsedRun + 1, t.sustain);
        if !tripped && run >= t.sustain then (Latch(0, 0, now, l.trips + 1), Trip)
        else (l.(collapsedRun := run, healthyRun := 0), NoAction)
      case Healthy =>
        var run := l.healthyRun + 1;
        if tripped && run >= t.Recovery() then (l.(collapsedRun := 0, healthyRun := 0, trippedAt := 0.0), Clear)
        else (l.(collapsedRun := 0, healthyRun := run), NoAction)
      case Unknown => (l.(collapsedRun := 0, healthyRun := 0), NoAction)
  }

  function Appended(ring: seq<Sample>, s: Sample, capacity: nat): seq<Sample>
    requires capacity > 0
  {
    if |ring| < capacity then ring + [s] else ring[|ring| + 1 - capacity..] + [s]
  }

  /** The ring once a verdict has been given: a reset drops all but the newest. */
  ghost function RingAfter(ring: seq<Sample>, t: Thresholds, now: real, width: real): seq<Sample> {
    var win := InWindow(ring, now, width);
    if t.Armed() && |win| >= MIN_SAMPLES && Span(win) >= MIN_WINDOW_S && Reset(win) && ring != []
    then [ring[|ring| - 1]] else ring
  }

  class GoodputMonitor {
    const capacity: nat
    const width: real
    var rings: map<string, seq<Sample>>
    var latches: map<string, Latch>

    function Ring(ep: string): seq<Sample> reads this { if ep in rings then rings[ep] else [] }

    function LatchFor(ep: string): Latch reads this { if ep in latches then latches[ep] else UNLATCHED }

    constructor (capacity: int, width: real)
      ensures this.capacity == Max(MIN_SAMPLES, capacity) && this.width == width
      ensures rings == map[] && latches == map[]
    {
      this.capacity, this.width := Max(MIN_SAMPLES, capacity), width;
      rings, latches := map[], map[];
    }

    /** A failed scrape (`None`) is recorded as a sample with everything absent. */
    method Observe(ep: string, ts: real, counters: Option<map<Key, real>>)
      requires capacity > 0
      modifies this`rings
      ensures Ring(ep) == Appended(old(Ring(ep)), Sample(ts, counters.GetOr(map[])), capacity)
      ensures rings == old(rings)[ep := Ring(ep)]
    {
      var ring := if ep in rings then rings[ep] else [];
      rings := rings[ep := Appended(ring, Sample(ts, counters.GetOr(map[])), capacity)];
    }

    method Evaluate(ep: string, t: Thresholds, now: real) returns (v: Verdict)
      modifies this`rings
      ensures Fits(old(Ring(ep)), InWindow(old(Ring(ep)), now, width), t, v)
      ensures v.outcome == OutcomeOf(InWindow(old(Ring(ep)), now, width), t)
      ensures Ring(ep) == RingAfter(old(Ring(ep)), t, now, width)
      ensures rings == old(rings) || rings == old(rings)[ep := Ring(ep)]
    {
      hide OutcomeOf, Reset, InWindow, EvidenceFits, Observed, Needs, Present;
      var ring := Ring(ep);
      v := Judge(ring, t, now, width);
      if v.reason == CounterReset {
        EmptyRing(now, width);
        rings := rings[ep := [ring[|ring| - 1]]];
      }
    }

    method Step(ep: string, v: Verdict, tripped: bool, t: Thresholds, now: real) returns (a: Action)
      modifies this`latches
      ensures (LatchFor(ep), a) == LatchStep(old(LatchFor(ep)), v.outcome, tripped, t, now)
      ensures latches == old(latches)[ep := LatchFor(ep)]
    {
      var l := LatchFor(ep);
      a := NoAction;
      if tripped && l.trippedAt != 0.0 && now - l.trippedAt >= t.MaxHold() {
        l := l.(collapsedRun := 0, healthyRun := 0, trippedAt := 0.0);
        a := Clear;
      } else if v.outcome == Collapsed {
        l := l.(healthyRun := 0, collapsedRun := Min(l.collapsedRun + 1, t.sustain));
        if !tripped && l.collapsedRun >= t.sustain {
          l := l.(trippedAt := now, trips := l.trips + 1, collapsedRun := 0);
          a := Trip;
        }
      } else if v.outcome == Healthy {
        l := l.(collapsedRun := 0, healthyRun := l.healthyRun + 1);
        if tripped && l.healthyRun >= t.Recovery() {
          l := l.(trippedAt := 0.0, healthyRun := 0);
          a := Clear;
        }
      } else {
        l := l.(collapsedRun := 0, healthyRun := 0);
      }
      latches := latches[ep := l];
    }
  }
}
