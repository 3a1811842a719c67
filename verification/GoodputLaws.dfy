/** What holds over every run of the goodput poller on one endpoint, with
    thresholds that may change between ticks. */
module GoodputLaws {
  import opened Prelude
  import opened Goodput
  import opened GoodputRuns
  import Scrape

  // ------------------------------------------------------------ verdict laws

  lemma {:induction false} WindowMember(ring: seq<Sample>, now: real, width: real, s: Sample)
    ensures s in InWindow(ring, now, width) <==> s in ring && now - s.ts <= width
  {
    if ring != [] {
      var n := |ring| - 1;
      WindowMember(ring[..n], now, width, s);
      assert ring == ring[..n] + [ring[n]];
    }
  }

  /** A window that is judged at all shows every needed counter in every sample. */
  lemma JudgedIsObserved(win: seq<Sample>, t: Thresholds, s: Sample, k: Key)
    requires OutcomeOf(win, t) != Unknown && s in win && Needs(t, k)
    ensures k in s.values
  {
    assert Present(win, k);
  }

  /** Erasing one needed counter from one in-window sample always blinds the
      verdict, whatever the other numbers are. */
  lemma ErasureBlinds(ring: seq<Sample>, t: Thresholds, now: real, width: real, i: nat, k: Key)
    requires i < |ring| && now - ring[i].ts <= width && Needs(t, k)
    ensures var erased := ring[i := ring[i].(values := ring[i].values - {k})];
            OutcomeOf(InWindow(erased, now, width), t) == Unknown
  {
    hide OutcomeOf;
    var s := ring[i].(values := ring[i].values - {k});
    var erased := ring[i := s];
    assert erased[i] == s;
    WindowMember(erased, now, width, s);
    if OutcomeOf(InWindow(erased, now, width), t) != Unknown {
      JudgedIsObserved(InWindow(erased, now, width), t, s, k);
    }
  }

  /** A verdict of collapse, spelled out. */
  lemma CollapseMeans(win: seq<Sample>, t: Thresholds)
    ensures OutcomeOf(win, t) == Collapsed <==>
              && t.Armed() && |win| >= MIN_SAMPLES && Span(win) >= MIN_WINDOW_S
              && (forall k, i :: k in CUMULATIVE && 0 < i < |win| ==> !Drops(win, k, i))
              && (forall k, i :: Needs(t, k) && 0 <= i < |win| ==> k in win[i].values)
              && (forall i :: 0 <= i < |win| ==> Level(win[i], RUNNING) >= t.minRunning as real)
              && (forall c: Clause :: t.Declares(c) ==> ClauseValue(win, c) < t.Ceiling(c).value)
  {
    hide ClauseValue, Needs, Level;
    if OutcomeOf(win, t) == Collapsed {
      forall k, i | Needs(t, k) && 0 <= i < |win| ensures k in win[i].values {
        assert Present(win, k);
      }
    }
  }

  // -------------------------------------------------------------------- runs

  /** One evaluation, as it would be logged. */
  datatype Entry = Entry(tick: Tick, win: seq<Sample>, outcome: Outcome, action: Action)

  /** A run: the state it reached and the evaluations on the way. */
  datatype Trace = Trace(state: State, log: seq<Entry>)

  ghost function Extended(r: Trace, k: Tick, capacity: nat, width: real): Trace
    requires capacity > 0
  {
    var (s, action) := Sampled(r.state, k, capacity, width);
    if !k.t.Armed() then r
    else
      var win := WindowAt(r.state, k, capacity, width);
      Trace(s, r.log + [Entry(k, win, OutcomeOf(win, k.t), action)])
  }

  ghost function RunOf(ticks: seq<Tick>, capacity: nat, width: real): Trace
    requires capacity > 0
  {
    if ticks == [] then Trace(START, [])
    else Extended(RunOf(ticks[..|ticks| - 1], capacity, width), ticks[|ticks| - 1], capacity, width)
  }

  // ------------------------------------------------- reading a log backwards

  /** The last trip has not been cleared. */
  function Held(log: seq<Entry>): bool {
    log != [] &&
    var e := log[|log| - 1];
    e.action == Trip || (e.action == NoAction && Held(log[..|log| - 1]))
  }

  function HeldSince(log: seq<Entry>): real {
    if log == [] then 0.0
    else
      var e := log[|log| - 1];
      if e.action == Trip then e.tick.now else HeldSince(log[..|log| - 1])
  }

  function Trips(log: seq<Entry>): nat {
    if log == [] then 0
    else Trips(log[..|log| - 1]) + (if log[|log| - 1].action == Trip then 1 else 0)
  }

  /** How many evaluations in a row, up to the end, had this outcome without the
      latch doing anything. */
  function Streak(log: seq<Entry>, o: Outcome): (n: nat)
    ensures n <= |log|
  {
    if log == [] then 0
    else
      var e := log[|log| - 1];
      if e.outcome == o && e.action == NoAction then 1 + Streak(log[..|log| - 1], o) else 0
  }

  /** How long a trip may be held: 300 seconds unless configured. */
  function HoldLimit(t: Thresholds): real { if t.maxHold != 0.0 then t.maxHold else 300.0 }

  /** How many healthy verdicts a recovery takes: two unless configured. */
  function RecoveryCount(t: Thresholds): int { if t.recovery != 0 then t.recovery else 2 }

  predicate Expired(log: seq<Entry>, e: Entry) {
    Held(log) && HeldSince(log) != 0.0 && e.tick.now - HeldSince(log) >= HoldLimit(e.tick.t)
  }

  /** What the latch may do in an evaluation `e` that follows `log`. */
  predicate Justified(log: seq<Entry>, e: Entry) {
    match e.action
    case Trip =>
      !Held(log) && e.outcome == Collapsed && Streak(log, Collapsed) + 1 >= e.tick.t.sustain
    case Clear =>
      Held(log) &&
      (Expired(log, e) || (e.outcome == Healthy && Streak(log, Healthy) + 1 >= RecoveryCount(e.tick.t)))
    case NoAction =>
      !Expired(log, e) &&
      !(Held(log) && e.outcome == Healthy && Streak(log, Healthy) + 1 >= RecoveryCount(e.tick.t))
  }

  predicate AllJustified(log: seq<Entry>) {
    log == [] ||
    (AllJustified(log[..|log| - 1]) && Justified(log[..|log| - 1], log[|log| - 1]))
  }

  /** The latch agrees with its own log. */
  ghost predicate Agrees(r: Trace) {
    var l := r.state.latch;
    && r.state.tripped == Held(r.log)
    && (r.state.tripped ==> l.trippedAt == HeldSince(r.log))
    && l.trips == Trips(r.log)
    && l.healthyRun == Streak(r.log, Healthy)
    && 0 <= l.collapsedRun <= Streak(r.log, Collapsed)
  }

  lemma Logged(log: seq<Entry>, e: Entry)
    ensures Held(log + [e]) == (e.action == Trip || (e.action == NoAction && Held(log)))
    ensures HeldSince(log + [e]) == if e.action == Trip then e.tick.now else HeldSince(log)
    ensures Trips(log + [e]) == Trips(log) + (if e.action == Trip then 1 else 0)
    ensures forall o :: Streak(log + [e], o) ==
              if e.outcome == o && e.action == NoAction then 1 + Streak(log, o) else 0
  {
    assert (log + [e])[..|log|] == log;
  }

  lemma LatchKeeps(r: Trace, k: Tick, win: seq<Sample>, ring: seq<Sample>)
    requires Agrees(r) && k.t.Armed()
    ensures var o := OutcomeOf(win, k.t);
            var (latch, action) := LatchStep(r.state.latch, o, r.state.tripped, k.t, k.now);
            var e := Entry(k, win, o, action);
            var tripped := if action == Trip then true else if action == Clear then false else r.state.tripped;
            Justified(r.log, e) && Agrees(Trace(State(ring, latch, tripped), r.log + [e]))
  {
    hide OutcomeOf, Held, HeldSince, Trips, Streak;
    var o := OutcomeOf(win, k.t);
    var (latch, action) := LatchStep(r.state.latch, o, r.state.tripped, k.t, k.now);
    Logged(r.log, Entry(k, win, o, action));
  }

  lemma StepKeeps(r: Trace, k: Tick, capacity: nat, width: real)
    requires capacity > 0 && Agrees(r) && AllJustified(r.log)
    ensures Agrees(Extended(r, k, capacity, width)) && AllJustified(Extended(r, k, capacity, width).log)
  {
    hide Agrees, Justified, OutcomeOf, LatchStep, RingAfter, InWindow;
    if k.t.Armed() {
      LatchKeeps(r, k, WindowAt(r.state, k, capacity, width), Sampled(r.state, k, capacity, width).0.ring);
      var log := Extended(r, k, capacity, width).log;
      assert log[..|log| - 1] == r.log;
    }
  }

  lemma NewTraceAgrees()
    ensures Agrees(Trace(START, [])) && AllJustified([])
  {}

  /** Over every run: TRIP and CLEAR alternate (a trip only when none is held, a
      clear only of a held one), the breaker set holds the endpoint exactly
      between them, and `trips` counts the trips.  A TRIP needs `sustain`
      collapsed verdicts in a row with nothing in between; a CLEAR needs
      `recovery` healthy ones in a row since the trip, or an expired hold; and
      an evaluation that leaves a trip held finds it younger than the maximum
      hold. */
  lemma {:induction false} LatchLaws(ticks: seq<Tick>, capacity: nat, width: real)
    requires capacity > 0
    ensures var r := RunOf(ticks, capacity, width);
            Agrees(r) && AllJustified(r.log)
  {
    hide Agrees, AllJustified, Extended;
    if ticks == [] {
      NewTraceAgrees();
    } else {
      var n := |ticks| - 1;
      LatchLaws(ticks[..n], capacity, width);
      StepKeeps(RunOf(ticks[..n], capacity, width), ticks[n], capacity, width);
    }
  }

  // ----------------------------------------------------- a trip is exact too

  /** With one sustain setting throughout, the collapsed counter is the streak,
      cut off at the setting. */
  ghost predicate Counts(r: Trace, sustain: int) {
    r.state.latch.collapsedRun == Min(Streak(r.log, Collapsed), sustain)
  }

  lemma CountsKeeps(r: Trace, k: Tick, capacity: nat, width: real)
    requires capacity > 0 && k.t.Armed() && Agrees(r) && Counts(r, k.t.sustain)
    ensures Counts(Extended(r, k, capacity, width), k.t.sustain)
    ensures var x := Extended(r, k, capacity, width);
            var e := x.log[|r.log|];
            e.action == Trip <==>
              !Held(r.log) && e.outcome == Collapsed && Streak(r.log, Collapsed) + 1 >= k.t.sustain
  {
    hide OutcomeOf, RingAfter, InWindow, Held, HeldSince, Trips, Streak;
    var x := Extended(r, k, capacity, width);
    Logged(r.log, x.log[|r.log|]);
    assert x.log == r.log + [x.log[|r.log|]];
  }

  /** At an endpoint whose sustain setting does not change, the breaker trips
      exactly when no trip is held and the streak of collapsed verdicts reaches
      the setting. */
  lemma {:induction false} TripIsExact(ticks: seq<Tick>, capacity: nat, width: real, sustain: int)
    requires capacity > 0 && sustain >= 1
    requires forall i :: 0 <= i < |ticks| ==> ticks[i].t.Armed() && ticks[i].t.sustain == sustain
    ensures var r := RunOf(ticks, capacity, width);
            && Counts(r, sustain) && |r.log| == |ticks|
            && (ticks != [] ==>
                  var past, e := r.log[..|ticks| - 1], r.log[|ticks| - 1];
                  e.action == Trip <==>
                    !Held(past) && e.outcome == Collapsed && Streak(past, Collapsed) + 1 >= sustain)
  {
    hide Agrees;
    if ticks != [] {
      var n := |ticks| - 1;
      TripIsExact(ticks[..n], capacity, width, sustain);
      LatchLaws(ticks[..n], capacity, width);
      var r := RunOf(ticks[..n], capacity, width);
      CountsKeeps(r, ticks[n], capacity, width);
      assert RunOf(ticks, capacity, width).log[..n] == r.log;
    }
  }

  // --------------------------------------------------------------- blindness

  /** Each logged evaluation is of the window that ends with its own scrape. */
  ghost predicate Honest(e: Entry) {
    && e.outcome == OutcomeOf(e.win, e.tick.t)
    && SampleOf(e.tick.probe, e.tick.t, e.tick.now) in e.win
  }

  ghost predicate AllHonest(log: seq<Entry>) {
    forall i :: 0 <= i < |log| ==> Honest(log[i])
  }

  lemma WindowHasNewest(s: State, k: Tick, capacity: nat, width: real)
    requires capacity > 0 && width >= 0.0
    ensures SampleOf(k.probe, k.t, k.now) in WindowAt(s, k, capacity, width)
  {
    var x := SampleOf(k.probe, k.t, k.now);
    var ring := Observing(s, k, capacity);
    assert ring[|ring| - 1] == x;
    WindowMember(ring, k.now, width, x);
  }

  lemma {:induction false} RunIsHonest(ticks: seq<Tick>, capacity: nat, width: real)
    requires capacity > 0 && width >= 0.0
    ensures AllHonest(RunOf(ticks, capacity, width).log)
  {
    hide OutcomeOf, LatchStep, RingAfter, InWindow, SampleOf;
    if ticks != [] {
      var n := |ticks| - 1;
      RunIsHonest(ticks[..n], capacity, width);
      WindowHasNewest(RunOf(ticks[..n], capacity, width).state, ticks[n], capacity, width);
    }
  }

  /** An evaluation that is not blind had every needed counter published by its
      own scrape, and present in every sample of its window. */
  ghost predicate SawEverything(e: Entry) {
    forall k :: Needs(e.tick.t, k) ==> Publishes(e.tick.probe, e.tick.t, k) && Present(e.win, k)
  }

  lemma HonestSaw(e: Entry)
    requires Honest(e) && e.outcome != Unknown
    ensures SawEverything(e)
  {
    hide Publishes, Needs;
    forall k | Needs(e.tick.t, k) ensures Publishes(e.tick.probe, e.tick.t, k) && Present(e.win, k) {
      var x := SampleOf(e.tick.probe, e.tick.t, e.tick.now);
      assert Observed(e.win, e.tick.t);
      JudgedIsObserved(e.win, e.tick.t, x, k);
    }
  }

  lemma {:induction false} StreakOutcomes(log: seq<Entry>, o: Outcome, i: nat)
    requires |log| - Streak(log, o) <= i < |log|
    ensures log[i].outcome == o
  {
    if i < |log| - 1 {
      StreakOutcomes(log[..|log| - 1], o, i);
    }
  }

  lemma {:induction false} JustifiedAt(log: seq<Entry>, i: nat)
    requires AllJustified(log) && i < |log|
    ensures Justified(log[..i], log[i])
  {
    if i < |log| - 1 {
      JustifiedAt(log[..|log| - 1], i);
      assert log[..|log| - 1][..i] == log[..i];
    }
  }

  /** Blindness never trips.  In every run, at every TRIP, each of the last
      `sustain` evaluations had every counter that a configured clause needs
      published by its own scrape and present in every sample of its window. */
  lemma TripSawEverything(ticks: seq<Tick>, capacity: nat, width: real, i: nat, j: nat)
    requires capacity > 0 && width >= 0.0
    requires var log := RunOf(ticks, capacity, width).log;
             i < |log| && log[i].action == Trip && i - log[i].tick.t.sustain < j <= i
    ensures SawEverything(RunOf(ticks, capacity, width).log[j])
  {
    hide Agrees, SawEverything, Honest;
    var log := RunOf(ticks, capacity, width).log;
    LatchLaws(ticks, capacity, width);
    RunIsHonest(ticks, capacity, width);
    JustifiedAt(log, i);
    if j < i {
      StreakOutcomes(log[..i], Collapsed, j);
    }
    assert log[j].outcome == Collapsed;
    HonestSaw(log[j]);
  }

  /** An endpoint that declares a counter its engine never publishes never
      trips. */
  lemma UnpublishedNeverTrips(ticks: seq<Tick>, capacity: nat, width: real, k: Key)
    requires capacity > 0 && width >= 0.0
    requires forall i :: 0 <= i < |ticks| ==>
               Needs(ticks[i].t, k) && !Publishes(ticks[i].probe, ticks[i].t, k)
    ensures var r := RunOf(ticks, capacity, width);
            && (forall i :: 0 <= i < |r.log| ==> r.log[i].outcome == Unknown && r.log[i].action != Trip)
            && !r.state.tripped && r.state.latch.trips == 0
  {
    hide Agrees, Needs, Publishes, Honest, SawEverything, Justified;
    var r := RunOf(ticks, capacity, width);
    RunIsHonest(ticks, capacity, width);
    LatchLaws(ticks, capacity, width);
    forall i | 0 <= i < |r.log| ensures r.log[i].outcome == Unknown && r.log[i].action != Trip {
      LoggedTick(ticks, capacity, width, i);
      if r.log[i].outcome != Unknown {
        HonestSaw(r.log[i]);
        BlindTick(r.log[i], k);
      }
      JustifiedAt(r.log, i);
      TripIsCollapse(r.log[..i], r.log[i]);
    }
    NeverHeld(r.log);
    AgreesMeans(r);
  }

  lemma BlindTick(e: Entry, k: Key)
    requires SawEverything(e) && Needs(e.tick.t, k)
    ensures Publishes(e.tick.probe, e.tick.t, k)
  {}

  lemma TripIsCollapse(log: seq<Entry>, e: Entry)
    requires Justified(log, e)
    ensures e.action == Trip ==> e.outcome == Collapsed
  {}

  lemma AgreesMeans(r: Trace)
    requires Agrees(r)
    ensures r.state.tripped == Held(r.log) && r.state.latch.trips == Trips(r.log)
  {}

  lemma {:induction false} NeverHeld(log: seq<Entry>)
    requires forall i :: 0 <= i < |log| ==> log[i].action != Trip
    ensures !Held(log) && Trips(log) == 0
  {
    if log != [] {
      NeverHeld(log[..|log| - 1]);
    }
  }

  /** Every logged evaluation belongs to one of the ticks. */
  lemma {:induction false} LoggedTick(ticks: seq<Tick>, capacity: nat, width: real, i: nat)
    requires capacity > 0 && i < |RunOf(ticks, capacity, width).log|
    ensures RunOf(ticks, capacity, width).log[i].tick in ticks
  {
    hide OutcomeOf, LatchStep, RingAfter, InWindow, SampleOf;
    var n := |ticks| - 1;
    if ticks != [] {
      var r := RunOf(ticks[..n], capacity, width);
      if i < |r.log| {
        LoggedTick(ticks[..n], capacity, width, i);
      }
    }
  }

  // -------------------------------------------------------- the bounded hold

  /** A clock that starts at or above zero, as a monotonic one does. */
  predicate FromZero(ticks: seq<Tick>) {
    forall i :: 0 <= i < |ticks| ==> ticks[i].now >= 0.0
  }

  predicate Dated(ring: seq<Sample>) {
    forall i :: 0 <= i < |ring| ==> ring[i].ts >= 0.0
  }

  lemma RingDated(s: State, k: Tick, capacity: nat, width: real)
    requires capacity > 0 && Dated(s.ring) && k.now >= 0.0
    ensures Dated(Observing(s, k, capacity)) && Dated(Sampled(s, k, capacity, width).0.ring)
  {
    hide OutcomeOf, LatchStep, InWindow, Reset, SampleOf;
    SampleTime(k.probe, k.t, k.now);
  }

  lemma {:induction false} RunDated(ticks: seq<Tick>, capacity: nat, width: real)
    requires capacity > 0 && FromZero(ticks)
    ensures Dated(RunOf(ticks, capacity, width).state.ring)
  {
    hide Sampled;
    if ticks != [] {
      var n := |ticks| - 1;
      RunDated(ticks[..n], capacity, width);
      RingDated(RunOf(ticks[..n], capacity, width).state, ticks[n], capacity, width);
    }
  }

  /** A collapse needs a span that ends now, so it cannot be seen before the
      shortest window has passed. */
  lemma CollapseIsLate(s: State, k: Tick, capacity: nat, width: real)
    requires capacity > 0 && width >= 0.0 && Dated(s.ring) && k.now >= 0.0
    requires OutcomeOf(WindowAt(s, k, capacity, width), k.t) == Collapsed
    ensures k.now >= MIN_WINDOW_S
  {
    hide SampleOf, Reset, Observed, Stalled, Occupied;
    RingDated(s, k, capacity, width);
    var ring := Observing(s, k, capacity);
    var n := |ring| - 1;
    SampleTime(k.probe, k.t, k.now);
    var win := WindowAt(s, k, capacity, width);
    assert win[|win| - 1] == ring[n];
    WindowMember(ring, k.now, width, win[0]);
  }

  predicate LateCollapses(log: seq<Entry>) {
    forall i :: 0 <= i < |log| && log[i].outcome == Collapsed ==> log[i].tick.now >= MIN_WINDOW_S
  }

  lemma {:induction false} RunIsLate(ticks: seq<Tick>, capacity: nat, width: real)
    requires capacity > 0 && width >= 0.0 && FromZero(ticks)
    ensures LateCollapses(RunOf(ticks, capacity, width).log)
  {
    hide OutcomeOf, Sampled, WindowAt;
    if ticks != [] {
      var n := |ticks| - 1;
      RunIsLate(ticks[..n], capacity, width);
      RunDated(ticks[..n], capacity, width);
      var r := RunOf(ticks[..n], capacity, width);
      if OutcomeOf(WindowAt(r.state, ticks[n], capacity, width), ticks[n].t) == Collapsed {
        CollapseIsLate(r.state, ticks[n], capacity, width);
      }
    }
  }

  lemma {:induction false} HeldIsLate(log: seq<Entry>)
    requires AllJustified(log) && LateCollapses(log) && Held(log)
    ensures HeldSince(log) >= MIN_WINDOW_S
  {
    var n := |log| - 1;
    if log[n].action != Trip {
      HeldIsLate(log[..n]);
    }
  }

  /** On such a clock a held trip was recorded no earlier than the shortest window,
      and in particular not at zero, the value that stands for no trip. */
  lemma HeldTripIsDated(ticks: seq<Tick>, capacity: nat, width: real)
    requires capacity > 0 && width >= 0.0 && FromZero(ticks)
    requires RunOf(ticks, capacity, width).state.tripped
    ensures HeldSince(RunOf(ticks, capacity, width).log) >= MIN_WINDOW_S
  {
    LatchLaws(ticks, capacity, width);
    RunIsLate(ticks, capacity, width);
    HeldIsLate(RunOf(ticks, capacity, width).log);
  }

  /** A held trip is released by the first armed tick that finds it as old as the
      maximum hold, whatever that tick can see. */
  lemma HoldIsBounded(ticks: seq<Tick>, capacity: nat, width: real, k: Tick)
    requires capacity > 0 && width >= 0.0 && FromZero(ticks) && k.t.Armed()
    requires var r := RunOf(ticks, capacity, width);
             r.state.tripped && k.now - HeldSince(r.log) >= HoldLimit(k.t)
    ensures var x := Extended(RunOf(ticks, capacity, width), k, capacity, width);
            !x.state.tripped && x.log[|x.log| - 1].action == Clear
  {
    hide OutcomeOf, RingAfter, InWindow;
    HeldTripIsDated(ticks, capacity, width);
    LatchLaws(ticks, capacity, width);
  }

  // ------------------------------------------------- a clock that is below zero

  /** An engine that runs one request and reports itself idle. */
  const IDLE: Probe := Probe(Some([Scrape.Sample("llamacpp:requests_processing", Some(1))]), Some(0.0))

  const DARK: Probe := Probe(None, None)

  /** Trip on the first idle verdict. */
  const EAGER: Thresholds := Thresholds(1, 1, None, None, None, 1.0, 0, 0.0)

  const NEGATIVE_RUN: seq<Tick> := [Tick(-5.0, EAGER, IDLE), Tick(0.0, EAGER, IDLE)]

  lemma IdleSample(now: real)
    ensures var x := SampleOf(IDLE, EAGER, now);
            && x.ts == now && RUNNING in x.values && x.values[RUNNING] == 1.0
            && Busy in x.values && x.values[Busy] == 0.0
            && ITERATIONS !in x.values && GENERATION !in x.values && PROMPT !in x.values
  {
    IdleScrape();
  }

  lemma IdleScrape()
    ensures Scrape.Scraped(IDLE.body.value, Scrape.Running) == Some(1)
    ensures forall c: Scrape.Counter :: c != Scrape.Running ==> Scrape.Scraped(IDLE.body.value, c).None?
  {
    hide Scrape.CounterOf, Scrape.Scraped;
    ProcessingIsRunning();
    Scrape.SingleLine("llamacpp:requests_processing", 1, Scrape.Running);
  }

  lemma ProcessingIsRunning()
    ensures Scrape.CounterOf("llamacpp:requests_processing") == Some(Scrape.Running)
  {
    hide Scrape.Partition, Scrape.CounterOf;
    Scrape.NoLabels("llamacpp:requests_processing");
    Scrape.SeriesFeed("llamacpp:requests_processing", "");
  }

  lemma EagerNeeds(k: Key)
    ensures Needs(EAGER, k) <==> k == RUNNING || k == Busy
    ensures EAGER.Armed() && forall c: Clause :: EAGER.Declares(c) <==> c == EngineIdle
  {
    NeedsByClause(EAGER);
    assert EAGER.Declares(EngineIdle);
  }

  lemma TwoIdleCollapse()
    ensures var a, b := SampleOf(IDLE, EAGER, -5.0), SampleOf(IDLE, EAGER, 0.0);
            OutcomeOf([a, b], EAGER) == Collapsed && OutcomeOf([a], EAGER) == Unknown
  {
    hide SampleOf, Needs;
    IdleSample(-5.0);
    IdleSample(0.0);
    var a, b := SampleOf(IDLE, EAGER, -5.0), SampleOf(IDLE, EAGER, 0.0);
    var win := [a, b];
    forall k ensures Needs(EAGER, k) <==> k == RUNNING || k == Busy { EagerNeeds(k); }
    EagerNeeds(RUNNING);
    assert win[..1] == [a];
    assert MaxOf([a], Busy) == 0.0;
    assert MaxOf(win, Busy) == 0.0;
    CollapseMeans(win, EAGER);
  }

  /** Held, and recorded at zero. */
  ghost predicate Stuck(ticks: seq<Tick>) {
    var s := RunOf(ticks, 6, 25.0).state;
    s.tripped && s.latch.trippedAt == 0.0
  }

  lemma StuckMore(ticks: seq<Tick>, k: Tick)
    requires Stuck(ticks) && k.probe == DARK && k.t == EAGER
    ensures Stuck(ticks + [k])
  {
    hide Sampled;
    assert (ticks + [k])[..|ticks|] == ticks;
    DarkKeeps(RunOf(ticks, 6, 25.0), k);
  }

  lemma {:induction false} StuckFor(later: seq<Tick>)
    requires forall i :: 0 <= i < |later| ==> later[i].probe == DARK && later[i].t == EAGER
    ensures Stuck(NEGATIVE_RUN + later)
  {
    hide Stuck;
    if later == [] {
      assert NEGATIVE_RUN + later == NEGATIVE_RUN;
      TripsAtZero();
    } else {
      var n := |later| - 1;
      StuckFor(later[..n]);
      StuckMore(NEGATIVE_RUN + later[..n], later[n]);
      assert NEGATIVE_RUN + later[..n] + [later[n]] == NEGATIVE_RUN + later;
    }
  }

  /** On a clock below zero a trip can be recorded at zero: it is then held, and no
      number of blind ticks releases it, however late they are. */
  lemma ZeroTripIsStuck(later: seq<Tick>)
    requires forall i :: 0 <= i < |later| ==> later[i].probe == DARK && later[i].t == EAGER
    ensures var r := RunOf(NEGATIVE_RUN + later, 6, 25.0);
            r.state.tripped && HeldSince(r.log) == 0.0
  {
    hide RunOf, AllJustified;
    StuckFor(later);
    LatchLaws(NEGATIVE_RUN + later, 6, 25.0);
  }

  lemma DarkKeeps(r: Trace, k: Tick)
    requires k.probe == DARK && k.t == EAGER && r.state.tripped && r.state.latch.trippedAt == 0.0
    ensures var s := Sampled(r.state, k, 6, 25.0).0; s.tripped && s.latch.trippedAt == 0.0
  {
    hide SampleOf, Needs;
    EagerNeeds(RUNNING);
    WindowHasNewest(r.state, k, 6, 25.0);
    var x := SampleOf(k.probe, k.t, k.now);
    DarkSample(k.now);
    var win := WindowAt(r.state, k, 6, 25.0);
    if OutcomeOf(win, k.t) != Unknown {
      JudgedIsObserved(win, k.t, x, RUNNING);
    }
  }

  lemma DarkSample(now: real)
    ensures RUNNING !in SampleOf(DARK, EAGER, now).values
  {}

  lemma TripsAtZero()
    ensures Stuck(NEGATIVE_RUN)
  {
    hide Sampled;
    var t1, t2 := NEGATIVE_RUN[0], NEGATIVE_RUN[1];
    assert NEGATIVE_RUN[..1] == [t1] && [t1][..0] == [];
    var r0 := RunOf([], 6, 25.0);
    var r1 := RunOf([t1], 6, 25.0);
    EagerNeeds(RUNNING);
    assert r1 == Extended(r0, t1, 6, 25.0);
    assert RunOf(NEGATIVE_RUN, 6, 25.0) == Extended(r1, t2, 6, 25.0);
    FirstIdleTick();
    SecondIdleTick(r1.state.latch);
  }

  lemma FirstIdleTick()
    ensures Sampled(START, NEGATIVE_RUN[0], 6, 25.0).0
         == State([SampleOf(IDLE, EAGER, -5.0)], UNLATCHED, false)
  {
    hide OutcomeOf, SampleOf, Needs, Reset, InWindow;
    var a := SampleOf(IDLE, EAGER, -5.0);
    IdleSample(-5.0);
    IdleSample(0.0);
    TwoIdleCollapse();
    EagerNeeds(RUNNING);
    OneInWindow(a, SampleOf(IDLE, EAGER, 0.0));
    assert Observing(START, NEGATIVE_RUN[0], 6) == [a];
  }

  lemma SecondIdleTick(l: Latch)
    requires l == UNLATCHED
    ensures var s := Sampled(State([SampleOf(IDLE, EAGER, -5.0)], l, false), NEGATIVE_RUN[1], 6, 25.0).0;
            s.tripped && s.latch.trippedAt == 0.0
  {
    hide OutcomeOf, SampleOf, Needs, Reset, InWindow;
    var a, b := SampleOf(IDLE, EAGER, -5.0), SampleOf(IDLE, EAGER, 0.0);
    IdleSample(-5.0);
    IdleSample(0.0);
    TwoIdleCollapse();
    EagerNeeds(RUNNING);
    OneInWindow(a, b);
    assert Observing(State([a], l, false), NEGATIVE_RUN[1], 6) == [a, b];
  }

  lemma OneInWindow(a: Sample, b: Sample)
    requires a.ts == -5.0 && b.ts == 0.0
    ensures InWindow([a], -5.0, 25.0) == [a] && InWindow([a, b], 0.0, 25.0) == [a, b]
  {
    assert [a][..0] == [] && [a, b][..1] == [a];
    assert InWindow([a], 0.0, 25.0) == [a];
  }
}
