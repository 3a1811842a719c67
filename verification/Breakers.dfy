/** The two breakers of `health.py`: the rate-windowed cooldown that dispatch
    failures feed, and the circuit that the poller's probes drive. */
module Breakers {
  import opened Prelude

  // ---------------------------------------------------------------- cooldown

  datatype Settings = Settings(shadow: bool, enforce: bool, window: real, allowed: int, duration: real)

  /** One failed dispatch; `status` is absent for an exception that is not a
      backend error. */
  datatype Failure = Failure(ep: string, status: Option<int>, bestEffort: bool, now: real)

  datatype Cooldown = Cooldown(
    times: map<string, seq<real>>,
    trips: map<string, nat>,
    until: map<string, real>,
    skips: map<string, nat>)

  function TimesOf(c: Cooldown, ep: string): seq<real> {
    if ep in c.times then c.times[ep] else []
  }

  function CountOf(m: map<string, nat>, ep: string): nat {
    if ep in m then m[ep] else 0
  }

  predicate BackendFault(s: Settings, f: Failure) {
    (s.shadow || s.enforce) && f.status.Some? && f.status.value >= 500
  }

  /** The failures that count: faults of the backend, given a fair chance. */
  predicate Counts(s: Settings, f: Failure) {
    BackendFault(s, f) && !f.bestEffort
  }

  /** Popping from the front while the front is too old. */
  function Pruned(times: seq<real>, cutoff: real): seq<real> {
    if times != [] && times[0] < cutoff then Pruned(times[1..], cutoff) else times
  }

  /** `record_dispatch_failure` */
  function Recorded(c: Cooldown, s: Settings, f: Failure): Cooldown {
    if !BackendFault(s, f) then c
    else if f.bestEffort then c.(skips := c.skips[f.ep := CountOf(c.skips, f.ep) + 1])
    else
      var times := Pruned(TimesOf(c, f.ep) + [f.now], f.now - s.window);
      if |times| < s.allowed then c.(times := c.times[f.ep := times])
      else
        c.(times := c.times[f.ep := []],
           trips := c.trips[f.ep := CountOf(c.trips, f.ep) + 1],
           until := if s.enforce then c.until[f.ep := f.now + s.duration] else c.until)
  }

  class CooldownBreaker {
    const settings: Settings
    var times: map<string, seq<real>>
    var trips: map<string, nat>
    var until: map<string, real>
    var skips: map<string, nat>

    ghost function View(): Cooldown reads this { Cooldown(times, trips, until, skips) }

    constructor (settings: Settings)
      ensures this.settings == settings && View() == Cooldown(map[], map[], map[], map[])
    {
      this.settings := settings;
      times, trips, until, skips := map[], map[], map[], map[];
    }

    /** `release` tells the caller to fast-fail the endpoint's queue. */
    method RecordDispatchFailure(f: Failure) returns (release: bool)
      modifies this
      ensures View() == Recorded(old(View()), settings, f)
      ensures release <==> settings.enforce && CountOf(trips, f.ep) > old(CountOf(trips, f.ep))
    {
      release := false;
      if !(settings.shadow || settings.enforce) { return; }
      if !(f.status.Some? && f.status.value >= 500) { return; }
      if f.bestEffort {
        skips := skips[f.ep := CountOf(skips, f.ep) + 1];
        return;
      }
      var ts := (if f.ep in times then times[f.ep] else []) + [f.now];
      var cutoff := f.now - settings.window;
      ghost var full := ts;
      while ts != [] && ts[0] < cutoff
        invariant Pruned(ts, cutoff) == Pruned(full, cutoff)
      {
        ts := ts[1..];
      }
      if |ts| < settings.allowed {
        times := times[f.ep := ts];
        return;
      }
      times := times[f.ep := []];
      trips := trips[f.ep := CountOf(trips, f.ep) + 1];
      if settings.enforce {
        until := until[f.ep := f.now + settings.duration];
        release := true;
      }
    }
  }

  // ----------------------------------------------------------------- circuit

  datatype Circuit = Circuit(healthy: bool, failures: nat, unhealthySince: Option<real>)

  /** One poll: did discovery answer, and would `/health` answer if asked. */
  datatype Poll = Poll(ok: bool, alive: bool, now: real)

  const Closed0: Circuit := Circuit(true, 0, None)

  /** `update_endpoint_health` */
  function Probed(h: Circuit, threshold: int, p: Poll): Circuit {
    if p.ok then Closed0
    else if !h.healthy then (if p.alive then Closed0 else h)
    else
      var n := h.failures + 1;
      if n < threshold then h.(failures := n)
      else if p.alive then h.(failures := 0)
      else Circuit(false, n, Some(p.now))
  }

  class EndpointHealth {
    var healthy: bool
    var failures: nat
    var unhealthySince: Option<real>

    ghost function View(): Circuit reads this { Circuit(healthy, failures, unhealthySince) }

    constructor ()
      ensures View() == Closed0
    {
      healthy, failures, unhealthySince := true, 0, None;
    }

    /** `resume` wakes the dispatcher, `release` fast-fails the queue. */
    method Update(threshold: int, p: Poll) returns (resume: bool, release: bool)
      modifies this
      ensures View() == Probed(old(View()), threshold, p)
      ensures resume <==> !old(healthy) && healthy
      ensures release <==> old(healthy) && !healthy
    {
      resume, release := false, false;
      if p.ok {
        resume := !healthy;
        healthy, failures, unhealthySince := true, 0, None;
        return;
      }
      if !healthy {
        if p.alive {
          healthy, failures, unhealthySince := true, 0, None;
          resume := true;
        }
        return;
      }
      failures := failures + 1;
      if failures >= threshold {
        if !p.alive {
          healthy, unhealthySince := false, Some(p.now);
          release := true;
        } else {
          failures := 0;
        }
      }
    }
  }
}
