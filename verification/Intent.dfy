/** Intent resolution, `intent.py`: which endpoint serves a request, which could
    instead, and why each of the others could not. */
module Intent {
  import opened Prelude
  import opened Seqs

  // -------------------------------------------------------------------- data

  datatype ModelFacts = ModelFacts(
    endpoint: string, kind: string, context: int, capabilities: set<string>,
    routed: bool, healthy: bool, maxSlots: int, inFlight: int,
    typicalMs: real, inputUsd: real, outputUsd: real, realCost: bool)

  datatype Preference = Latency | Capacity | Context | Cost | Balanced

  /** `excludePairs` holds (normalized, as written). */
  datatype Intent = Intent(
    pin: string, pinAsWritten: string, needs: set<string>, kind: string, minContext: nat,
    prefer: Preference, exclude: set<string>, excludePairs: seq<(string, string)>)

  datatype Reason = Excluded | NotRouted | WrongKind | MissingCapability | ContextTooSmall | UnknownEndpoint

  datatype Rejection = Rejection(endpoint: string, reason: Reason)

  datatype Resolution = Resolution(
    endpoint: Option<string>, ranked: seq<string>, rejected: seq<Rejection>, unmatched: seq<string>)

  // ----------------------------------------------------------------- ranking

  function FreeSlots(f: ModelFacts): int {
    Max(0, f.maxSlots - f.inFlight)
  }

  /** Unknown latency sorts after every known one: `inf` is (1, 0). */
  function LatencyKey(f: ModelFacts): seq<real> {
    if f.typicalMs > 0.0 then [0.0, f.typicalMs] else [1.0, 0.0]
  }

  function Room(f: ModelFacts): real {
    -(FreeSlots(f) as real)
  }

  /** `_preference_key` */
  function PreferenceKey(p: Preference, f: ModelFacts): seq<real> {
    match p
    case Latency => LatencyKey(f) + [Room(f)]
    case Capacity => [Room(f)] + LatencyKey(f)
    case Context => [-(f.context as real)] + LatencyKey(f)
    case Cost => [f.inputUsd + f.outputUsd] + LatencyKey(f)
    case Balanced => [if FreeSlots(f) > 0 then 0.0 else 1.0] + LatencyKey(f) + [Room(f)]
  }

  function Codes(name: string): seq<real> {
    seq(|name|, i requires 0 <= i < |name| => name[i] as int as real)
  }

  /** Money, then health, then the preference, then the name. */
  function Key(p: Preference, f: ModelFacts): seq<real> {
    [if f.realCost then 1.0 else 0.0, if f.healthy then 0.0 else 1.0] + PreferenceKey(p, f) + Codes(f.endpoint)
  }

  /** Lexicographic order. */
  predicate Leq(a: seq<real>, b: seq<real>) {
    a == [] || (b != [] && (a[0] < b[0] || (a[0] == b[0] && Leq(a[1..], b[1..]))))
  }

  /** Insertion after everything that is not greater. */
  function Insert(p: Preference, t: seq<ModelFacts>, f: ModelFacts): seq<ModelFacts> {
    if t == [] || Leq(Key(p, t[|t| - 1]), Key(p, f)) then t + [f]
    else Insert(p, t[..|t| - 1], f) + [t[|t| - 1]]
  }

  /** A stable sort. */
  function Sort(p: Preference, s: seq<ModelFacts>): seq<ModelFacts> {
    if s == [] then [] else Insert(p, Sort(p, s[..|s| - 1]), s[|s| - 1])
  }

  // -------------------------------------------------------------- eligibility

  /** The first constraint an endpoint fails. */
  function Verdict(i: Intent, f: ModelFacts): Option<Reason> {
    if f.endpoint in i.exclude then Some(Excluded)
    else if !f.routed then Some(NotRouted)
    else if f.kind != i.kind then Some(WrongKind)
    else if i.needs - f.capabilities != {} then Some(MissingCapability)
    else if i.minContext != 0 && f.context != 0 && f.context < i.minContext then Some(ContextTooSmall)
    else None
  }

  function Pinned(i: Intent): ModelFacts -> bool {
    (f: ModelFacts) => Strip(i.pin) == "" || f.endpoint == Strip(i.pin)
  }

  function Passing(i: Intent): ModelFacts -> bool {
    (f: ModelFacts) => Verdict(i, f) == None
  }

  function Failing(i: Intent): ModelFacts -> bool {
    (f: ModelFacts) => Verdict(i, f) != None
  }

  function Rejecting(i: Intent): ModelFacts -> Rejection {
    (f: ModelFacts) => Rejection(f.endpoint, Verdict(i, f).GetOr(UnknownEndpoint))
  }

  function Names(s: seq<ModelFacts>): seq<string> {
    Map((f: ModelFacts) => f.endpoint, s)
  }

  function Absent(present: seq<string>): ((string, string)) -> bool {
    (x: (string, string)) => x.0 !in present
  }

  /** The exclusions that name nothing here, as written. */
  function Unmatched(i: Intent, facts: seq<ModelFacts>): seq<string> {
    Map((x: (string, string)) => x.1, Filter(Absent(Names(facts)), i.excludePairs))
  }

  function Candidates(i: Intent, facts: seq<ModelFacts>): seq<ModelFacts> {
    Filter(Pinned(i), facts)
  }

  /** The eligible endpoints, best first. */
  function Ranking(i: Intent, facts: seq<ModelFacts>): seq<ModelFacts> {
    Sort(i.prefer, Filter(Passing(i), Candidates(i, facts)))
  }

  /** `resolve` */
  function Resolved(i: Intent, facts: seq<ModelFacts>): Resolution {
    var unmatched := Unmatched(i, facts);
    if unmatched != [] then
      Resolution(None, [], Map((n: string) => Rejection(n, UnknownEndpoint), unmatched), unmatched)
    else if Strip(i.pin) != "" && Candidates(i, facts) == [] then
      Resolution(None, [], [Rejection(if i.pinAsWritten != "" then i.pinAsWritten else Strip(i.pin), UnknownEndpoint)], [])
    else
      var ranked := Ranking(i, facts);
      Resolution(if ranked == [] then None else Some(ranked[0].endpoint),
                 Names(ranked),
                 Map(Rejecting(i), Filter(Failing(i), Candidates(i, facts))),
                 [])
  }

  /** `resolve`, with its loop over the candidates. */
  method Resolve(i: Intent, facts: seq<ModelFacts>) returns (r: Resolution)
    ensures r == Resolved(i, facts)
  {
    var pin := Strip(i.pin);
    var unmatched := Unmatched(i, facts);
    if unmatched != [] {
      return Resolution(None, [], Map((n: string) => Rejection(n, UnknownEndpoint), unmatched), unmatched);
    }
    var candidates := Candidates(i, facts);
    if pin != "" && candidates == [] {
      return Resolution(None, [], [Rejection(if i.pinAsWritten != "" then i.pinAsWritten else pin, UnknownEndpoint)], []);
    }
    var eligible: seq<ModelFacts>, rejected: seq<Rejection> := [], [];
    for k := 0 to |candidates|
      invariant eligible == Filter(Passing(i), candidates[..k])
      invariant rejected == Map(Rejecting(i), Filter(Failing(i), candidates[..k]))
    {
      var f := candidates[k];
      assert candidates[..k + 1] == candidates[..k] + [f];
      FilterSnoc(Passing(i), candidates[..k], f);
      FilterSnoc(Failing(i), candidates[..k], f);
      MapSnoc(Rejecting(i), Filter(Failing(i), candidates[..k]), f);
      if f.endpoint in i.exclude {
        rejected := rejected + [Rejection(f.endpoint, Excluded)];
        continue;
      }
      if !f.routed {
        rejected := rejected + [Rejection(f.endpoint, NotRouted)];
        continue;
      }
      if f.kind != i.kind {
        rejected := rejected + [Rejection(f.endpoint, WrongKind)];
        continue;
      }
      if i.needs - f.capabilities != {} {
        rejected := rejected + [Rejection(f.endpoint, MissingCapability)];
        continue;
      }
      if i.minContext != 0 && f.context != 0 && f.context < i.minContext {
        rejected := rejected + [Rejection(f.endpoint, ContextTooSmall)];
        continue;
      }
      eligible := eligible + [f];
    }
    assert candidates[..|candidates|] == candidates;
    if eligible == [] {
      assert Names([]) == [];
      return Resolution(None, [], rejected, []);
    }
    var ranked := Sort(i.prefer, eligible);
    SortKeepsLength(i.prefer, eligible);
    return Resolution(Some(ranked[0].endpoint), Names(ranked), rejected, []);
  }

  lemma {:induction false} InsertLength(p: Preference, t: seq<ModelFacts>, f: ModelFacts)
    ensures |Insert(p, t, f)| == |t| + 1
  {
    if t != [] && !Leq(Key(p, t[|t| - 1]), Key(p, f)) {
      InsertLength(p, t[..|t| - 1], f);
    }
  }

  lemma {:induction false} SortKeepsLength(p: Preference, s: seq<ModelFacts>)
    ensures |Sort(p, s)| == |s|
  {
    if s != [] {
      SortKeepsLength(p, s[..|s| - 1]);
      InsertLength(p, Sort(p, s[..|s| - 1]), s[|s| - 1]);
    }
  }
}
