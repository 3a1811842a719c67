/** One endpoint through scrape, observation, verdict, latch and breaker set,
    tick after tick, as `health.sample_goodput` drives it. */
module GoodputRuns {
  import opened Prelude
  import opened Goodput
  import Scrape

  // ---------------------------------------------------------------- one tick

  /** What one poller tick brings in: the lines of `/metrics` (`None` when the
      scrape failed) and the reading of the external busy gauge. */
  datatype Probe = Probe(body: Option<seq<Scrape.Line<int>>>, busy: Option<real>)

  /** The probe supplied this key.  The gauge is only asked for when the endpoint
      declares a floor for it. */
  ghost predicate Publishes(p: Probe, t: Thresholds, k: Key) {
    match k
    case Counted(c) => p.body.Some? && Scrape.Scraped(p.body.value, c).Some?
    case Busy => t.busyMin > 0.0 && p.busy.Some?
  }

  ghost function ReadingOf(p: Probe, k: Key): real {
    match k
    case Counted(c) =>
      if p.body.Some? then Scrape.Scraped(p.body.value, c).GetOr(0) as real else 0.0
    case Busy => p.busy.GetOr(0.0)
  }

  const KEYS: set<Key> := {RUNNING, ITERATIONS, GENERATION, PROMPT, Busy}

  lemma AllKeys()
    ensures forall k: Key :: k in KEYS
  {
    forall k: Key ensures k in KEYS {
      match k {
        case Counted(c) => match c { case Prompt => case Generation => case Iterations => case Running => }
        case Busy =>
      }
    }
  }

  /** The sample a probe becomes. */
  ghost function SampleOf(p: Probe, t: Thresholds, now: real): Sample {
    Sample(now, map k | k in KEYS && Publishes(p, t, k) :: ReadingOf(p, k))
  }

  /** The state of one endpoint: its ring, its latch, and whether the breaker set
      holds it. */
  datatype State = State(ring: seq<Sample>, latch: Latch, tripped: bool)

  const START := State([], UNLATCHED, false)

  datatype Tick = Tick(now: real, t: Thresholds, probe: Probe)

  ghost function Observing(s: State, k: Tick, capacity: nat): seq<Sample>
    requires capacity > 0
  {
    Appended(s.ring, SampleOf(k.probe, k.t, k.now), capacity)
  }

  ghost function WindowAt(s: State, k: Tick, capacity: nat, width: real): seq<Sample>
    requires capacity > 0
  {
    InWindow(Observing(s, k, capacity), k.now, width)
  }

  /** `sample_goodput`: an endpoint that is not configured is not touched. */
  ghost function Sampled(s: State, k: Tick, capacity: nat, width: real): (State, Action)
    requires capacity > 0
  {
    if !k.t.Armed() then (s, NoAction)
    else
      var ring := Observing(s, k, capacity);
      var outcome := OutcomeOf(InWindow(ring, k.now, width), k.t);
      var (latch, action) := LatchStep(s.latch, outcome, s.tripped, k.t, k.now);
      (State(RingAfter(ring, k.t, k.now, width), latch,
             if action == Trip then true else if action == Clear then false else s.tripped),
       action)
  }

  class GoodputPoller {
    const monitor: GoodputMonitor
    var collapsed: set<string>

    ghost function View(ep: string): State
      reads this, monitor
    {
      State(monitor.Ring(ep), monitor.LatchFor(ep), ep in collapsed)
    }

    constructor (capacity: int, width: real)
      ensures fresh(monitor) && monitor.capacity > 0 && monitor.width == width
      ensures forall ep :: View(ep) == START
    {
      monitor := new GoodputMonitor(capacity, width);
      collapsed := {};
    }

    /** The two probe results merged into one dictionary, `None` when the scrape
        failed and no gauge is declared. */
    method Merge(p: Probe, t: Thresholds) returns (counters: Option<map<Key, real>>)
      ensures counters.GetOr(map[]) == SampleOf(p, t, 0.0).values
    {
      hide Scrape.Scraped;
      AllKeys();
      counters := None;
      if p.body.Some? {
        var scraped := Scrape.ProbeProgressCounters(p.body.value);
        if scraped.Some? {
          counters := Some(map k | k in {RUNNING, ITERATIONS, GENERATION, PROMPT} && scraped.value[k.c].Some?
                             :: scraped.value[k.c].value as real);
        }
      }
      if t.busyMin > 0.0 {
        var base := counters.GetOr(map[]);
        counters := Some(if p.busy.Some? then base[Busy := p.busy.value] else base);
      }
    }

    method SampleGoodput(ep: string, k: Tick) returns (action: Action)
      requires monitor.capacity > 0
      modifies this, monitor
      ensures (View(ep), action) == Sampled(old(View(ep)), k, monitor.capacity, monitor.width)
      ensures forall e :: e != ep ==> View(e) == old(View(e))
    {
      hide OutcomeOf, RingAfter, InWindow, LatchStep, SampleOf;
      action := NoAction;
      if !k.t.Armed() {
        return;
      }
      var counters := Merge(k.probe, k.t);
      SampleTime(k.probe, k.t, k.now);
      monitor.Observe(ep, k.now, counters);
      var verdict := monitor.Evaluate(ep, k.t, k.now);
      var tripped := ep in collapsed;
      action := monitor.Step(ep, verdict, tripped, k.t, k.now);
      if action == Trip {
        collapsed := collapsed + {ep};
      } else if action == Clear {
        collapsed := collapsed - {ep};
      }
      forall e | e != ep ensures View(e) == old(View(e)) {
        assert monitor.Ring(e) == old(monitor.Ring(e));
        assert monitor.LatchFor(e) == old(monitor.LatchFor(e));
      }
    }
  }

  lemma SampleTime(p: Probe, t: Thresholds, now: real)
    ensures SampleOf(p, t, now) == Sample(now, SampleOf(p, t, 0.0).values)
  {}
}
