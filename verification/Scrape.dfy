/** The two folds of `backend.py` over a Prometheus text body: the progress
    counters (summed) and the external busy gauge (maximum).  A reading that
    cannot be trusted is absent, never zero and never partial. */
module Scrape {
  import opened Prelude
  import opened Seqs

  /** One line of the body.  `Skipped` is a comment or a line with no value
      field; `value` is `None` when the field is not a usable number. */
  datatype Line<+V> = Skipped | Sample(name: string, value: Option<V>)

  datatype Counter = Prompt | Generation | Iterations | Running

  /** `name.partition("{")`: the bare name and the label text. */
  function Partition(name: string): (string, string) {
    if name == "" then ("", "")
    else if name[0] == '{' then ("", name[1..])
    else var (bare, labels) := Partition(name[1..]); ([name[0]] + bare, labels)
  }

  /** Which counter a series feeds, by exact name or by prefix. */
  function CounterOf(name: string): Option<Counter> {
    var bare := Partition(name).0;
    if "vllm:prompt_tokens_total" <= name then Some(Prompt)
    else if "vllm:generation_tokens_total" <= name then Some(Generation)
    else if bare == "vllm:iteration_tokens_total_count" then Some(Iterations)
    else if bare == "vllm:num_requests_running" then Some(Running)
    else if "llamacpp:prompt_tokens_total" <= name then Some(Prompt)
    else if "llamacpp:n_decode_total" <= name then Some(Generation)
    else if bare == "llamacpp:requests_processing" then Some(Running)
    else None
  }

  /** A labelled reading. */
  type Reading<V> = (string, Option<V>)

  /** What a fold looks at: the series of a counter that hold a number, or every
      series of a named metric. */
  datatype Selector = Feeding(counter: Counter) | Named(metric: string)

  function Select<V>(l: Line<V>, sel: Selector): seq<Reading<V>> {
    if l.Skipped? then []
    else
      match sel
      case Feeding(k) =>
        if l.value.Some? && CounterOf(l.name) == Some(k) then [(Partition(l.name).1, l.value)] else []
      case Named(metric) =>
        if Partition(l.name).0 == metric then [(Partition(l.name).1, l.value)] else []
  }

  function Readings<V>(lines: seq<Line<V>>, sel: Selector): seq<Reading<V>> {
    if lines == [] then []
    else Readings(lines[..|lines| - 1], sel) + Select(lines[|lines| - 1], sel)
  }

  // ------------------------------------------------------ order independence

  lemma {:induction false} ReadingsAppend<V>(a: seq<Line<V>>, b: seq<Line<V>>, sel: Selector)
    ensures Readings(a + b, sel) == Readings(a, sel) + Readings(b, sel)
  {
    hide Select;
    if b == [] {
      assert a + b == a;
    } else {
      var n := |b| - 1;
      var c := a + b;
      assert c[..|c| - 1] == a + b[..n] && c[|c| - 1] == b[n];
      ReadingsAppend(a, b[..n], sel);
      var x, y, z := Readings(a, sel), Readings(b[..n], sel), Select(b[n], sel);
      assert (x + y) + z == x + (y + z);
    }
  }

  lemma OneLine<V>(x: Line<V>, sel: Selector)
    ensures Readings([x], sel) == Select(x, sel)
  {
    hide Select;
    assert [x][..0] == [];
    assert [] + Select(x, sel) == Select(x, sel);
  }

  /** Taking one line out takes exactly its readings out. */
  lemma WithoutLine<V>(m: seq<Line<V>>, i: nat, sel: Selector)
    requires i < |m|
    ensures var rest := m[..i] + m[i + 1..];
            && multiset(m) == multiset(rest) + multiset{m[i]}
            && multiset(Readings(m, sel)) == multiset(Readings(rest, sel)) + multiset(Select(m[i], sel))
  {
    hide Readings, Select;
    var a, b := m[..i], m[i + 1..];
    assert m == (a + [m[i]]) + b;
    ReadingsAppend(a, b, sel);
    ReadingsAppend(a + [m[i]], b, sel);
    ReadingsAppend(a, [m[i]], sel);
    OneLine(m[i], sel);
  }

  /** The readings of permuted lines are the same bag. */
  lemma {:induction false} SameBag<V>(l: seq<Line<V>>, m: seq<Line<V>>, sel: Selector)
    requires multiset(l) == multiset(m)
    ensures multiset(Readings(l, sel)) == multiset(Readings(m, sel))
    decreases |l|
  {
    hide Readings, Select;
    if l == [] {
      assert |multiset(m)| == 0;
      assert m == [];
    } else {
      assert l[0] in multiset(l);
      var i :| 0 <= i < |m| && m[i] == l[0];
      WithoutLine(l, 0, sel);
      WithoutLine(m, i, sel);
      var l1, m1 := l[..0] + l[1..], m[..i] + m[i + 1..];
      Cancel(multiset(l1), multiset(m1), l[0]);
      SameBag(l1, m1, sel);
    }
  }

  // ---------------------------------------------- specification, on the bags

  ghost predicate LabelIn<V>(bag: multiset<Reading<V>>, lb: string) {
    exists e :: e in bag && e.0 == lb
  }

  /** No label set occurs twice. */
  ghost predicate OncePerLabel<V>(bag: multiset<Reading<V>>) {
    && (forall e :: e in bag ==> bag[e] == 1)
    && (forall e, f :: e in bag && f in bag && e.0 == f.0 ==> e == f)
  }

  ghost predicate Natural(bag: multiset<Reading<int>>) {
    forall e :: e in bag ==> e.1.Some? && e.1.value >= 0
  }

  ghost predicate NonNegative(bag: multiset<Reading<real>>) {
    forall e :: e in bag ==> e.1.Some? && e.1.value >= 0.0
  }

  ghost function Total(bag: multiset<Reading<int>>): int {
    if bag == multiset{} then 0
    else
      var e :| e in bag;
      e.1.GetOr(0) + Total(bag - multiset{e})
  }

  /** A counter: the sum of its readings, if it has at least one, none is
      negative and no label set occurs twice; otherwise absent. */
  ghost function CounterValue(bag: multiset<Reading<int>>): Option<int> {
    if bag != multiset{} && Natural(bag) && OncePerLabel(bag) then Some(Total(bag)) else None
  }

  /** `r` is the gauge: the largest reading, if there is one, every matching line
      holds a non-negative number and no label set occurs twice; otherwise
      absent. */
  ghost predicate IsGauge(bag: multiset<Reading<real>>, r: Option<real>) {
    && (r.Some? <==> bag != multiset{} && NonNegative(bag) && OncePerLabel(bag))
    && (r.Some? ==>
          && (exists e :: e in bag && e.1 == r)
          && (forall e :: e in bag ==> e.1.GetOr(0.0) <= r.value))
  }

  lemma TotalFirst(bag: multiset<Reading<int>>) returns (f: Reading<int>)
    requires bag != multiset{}
    ensures f in bag && Total(bag) == f.1.GetOr(0) + Total(bag - multiset{f})
  {
    f :| f in bag && Total(bag) == f.1.GetOr(0) + Total(bag - multiset{f});
  }

  lemma {:induction false} TotalPick(bag: multiset<Reading<int>>, e: Reading<int>)
    requires e in bag
    ensures Total(bag) == e.1.GetOr(0) + Total(bag - multiset{e})
    decreases |bag|
  {
    hide Total;
    var f := TotalFirst(bag);
    if e != f {
      TotalPick(bag - multiset{f}, e);
      TotalPick(bag - multiset{e}, f);
      assert bag - multiset{e} - multiset{f} == bag - multiset{f} - multiset{e};
    }
  }

  lemma TotalAdd(bag: multiset<Reading<int>>, e: Reading<int>)
    ensures Total(bag + multiset{e}) == Total(bag) + e.1.GetOr(0)
  {
    TotalPick(bag + multiset{e}, e);
    assert bag + multiset{e} - multiset{e} == bag;
  }

  lemma OnceAdd<V>(bag: multiset<Reading<V>>, e: Reading<V>)
    ensures OncePerLabel(bag + multiset{e}) <==> OncePerLabel(bag) && !LabelIn(bag, e.0)
  {
    var more := bag + multiset{e};
    assert e in more;
    if OncePerLabel(more) {
      forall f | f in bag ensures f.0 != e.0 && bag[f] == 1 {
        assert f in more && more[f] == 1;
        assert e in bag ==> more[e] >= 2;
      }
      forall f, g | f in bag && g in bag && f.0 == g.0 ensures f == g {
        assert f in more && g in more;
      }
    }
    if OncePerLabel(bag) && !LabelIn(bag, e.0) {
      assert e !in bag;
      forall f | f in more ensures more[f] == 1 {
        if f != e { assert f in bag; }
      }
    }
  }

  lemma LabelsAdd<V>(bag: multiset<Reading<V>>, e: Reading<V>, l: string)
    ensures LabelIn(bag + multiset{e}, l) <==> LabelIn(bag, l) || l == e.0
  {
    if LabelIn(bag, l) {
      var f :| f in bag && f.0 == l;
      assert f in bag + multiset{e};
    } else if l == e.0 {
      assert e in bag + multiset{e};
    }
  }

  lemma NaturalAdd(bag: multiset<Reading<int>>, e: Reading<int>)
    ensures Natural(bag + multiset{e}) <==> Natural(bag) && e.1.Some? && e.1.value >= 0
  {
    var more := bag + multiset{e};
    assert e in more;
    forall f | f in bag ensures f in more {}
  }

  lemma NonNegativeAdd(bag: multiset<Reading<real>>, e: Reading<real>)
    ensures NonNegative(bag + multiset{e}) <==> NonNegative(bag) && e.1.Some? && e.1.value >= 0.0
  {
    var more := bag + multiset{e};
    assert e in more;
    forall f | f in bag ensures f in more {}
  }

  lemma EmptyBag<V>()
    ensures OncePerLabel<V>(multiset{}) && forall l :: !LabelIn<V>(multiset{}, l)
    ensures Natural(multiset{}) && NonNegative(multiset{}) && Total(multiset{}) == 0
  {}

  // -------------------------------------------------------- the counter fold

  /** What the three collections of the fold hold for one key. */
  datatype KeyState = KeyState(total: Option<int>, seen: set<string>, bad: bool)

  /** `take`, on one key. */
  function Took(s: KeyState, labels: string, v: int): KeyState {
    if s.bad then s
    else if v < 0 || labels in s.seen then s.(total := None, bad := true)
    else KeyState(Some(s.total.GetOr(0) + v), s.seen + {labels}, false)
  }

  /** The state of one key after the readings in `bag`. */
  ghost predicate Tracks(bag: multiset<Reading<int>>, s: KeyState) {
    && (s.bad <==> !(Natural(bag) && OncePerLabel(bag)))
    && s.total == CounterValue(bag)
    && (!s.bad ==> forall l :: l in s.seen <==> LabelIn(bag, l))
  }

  lemma TookTracks(bag: multiset<Reading<int>>, s: KeyState, e: Reading<int>)
    requires Tracks(bag, s) && e.1.Some?
    ensures Tracks(bag + multiset{e}, Took(s, e.0, e.1.value))
  {
    hide Natural, OncePerLabel, LabelIn, Total;
    NaturalAdd(bag, e);
    OnceAdd(bag, e);
    TotalAdd(bag, e);
    EmptyBag<int>();
    forall l ensures LabelIn(bag + multiset{e}, l) <==> LabelIn(bag, l) || l == e.0 {
      LabelsAdd(bag, e, l);
    }
    assert bag + multiset{e} != multiset{};
  }

  class CounterScrape {
    var totals: map<Counter, int>
    var seen: map<Counter, set<string>>
    var malformed: set<Counter>

    function StateFor(k: Counter): KeyState reads this {
      KeyState(if k in totals then Some(totals[k]) else None,
               if k in seen then seen[k] else {}, k in malformed)
    }

    constructor ()
      ensures forall k :: StateFor(k) == KeyState(None, {}, false)
    {
      totals, seen, malformed := map[], map[], {};
    }

    /** `take`: one reading for one key. */
    method Take(k: Counter, labels: string, v: int)
      modifies this
      ensures StateFor(k) == Took(old(StateFor(k)), labels, v)
      ensures forall j :: j != k ==> StateFor(j) == old(StateFor(j))
    {
      if k in malformed {
        return;
      }
      if v < 0 {
        malformed := malformed + {k};
        totals := totals - {k};
        return;
      }
      var labelsSeen := if k in seen then seen[k] else {};
      if labels in labelsSeen {
        malformed := malformed + {k};
        totals := totals - {k};
        return;
      }
      seen := seen[k := labelsSeen + {labels}];
      totals := totals[k := (if k in totals then totals[k] else 0) + v];
    }
  }

  /** The value of a counter over a whole body. */
  ghost function Scraped(lines: seq<Line<int>>, k: Counter): Option<int> {
    CounterValue(multiset(Readings(lines, Feeding(k))))
  }

  /** Permuting the lines of a body changes no counter. */
  lemma ScrapeOrderFree(l: seq<Line<int>>, m: seq<Line<int>>, k: Counter)
    requires multiset(l) == multiset(m)
    ensures Scraped(l, k) == Scraped(m, k)
  {
    SameBag(l, m, Feeding(k));
  }

  /** A body of one usable line supplies its own counter, and no other. */
  lemma SingleLine(name: string, v: int, k: Counter)
    requires CounterOf(name) == Some(k) && v >= 0
    ensures Scraped([Sample(name, Some(v))], k) == Some(v)
    ensures forall j :: j != k ==> Scraped([Sample(name, Some(v))], j).None?
  {
    hide CounterOf, Partition, Natural, OncePerLabel, LabelIn, Total;
    var line := Sample(name, Some(v));
    var e := (Partition(name).1, Some(v));
    OneLine(line, Feeding(k));
    assert multiset(Readings([line], Feeding(k))) == multiset{e};
    EmptyBag<int>();
    NaturalAdd(multiset{}, e);
    OnceAdd(multiset{}, e);
    TotalAdd(multiset{}, e);
    assert multiset{} + multiset{e} == multiset{e};
    forall j | j != k ensures Scraped([line], j).None? {
      OneLine(line, Feeding(j));
    }
  }

  /** A name is its bare part, and the label text after the first brace. */
  lemma {:induction false} PartitionMeans(name: string)
    ensures var (bare, labels) := Partition(name);
            '{' !in bare && name == (if '{' in name then bare + "{" + labels else bare)
            && ('{' !in name ==> labels == "")
  {
    if name != "" {
      assert name == [name[0]] + name[1..];
      if name[0] != '{' {
        PartitionMeans(name[1..]);
      }
    }
  }

  /** Which series feed which counter. The token counters go by prefix, the
      iteration counter and the gauges of running requests by exact name. */
  lemma SeriesFeed(name: string, rest: string)
    ensures CounterOf("vllm:prompt_tokens_total" + rest) == Some(Prompt)
    ensures CounterOf("vllm:generation_tokens_total" + rest) == Some(Generation)
    ensures CounterOf("llamacpp:prompt_tokens_total" + rest) == Some(Prompt)
    ensures CounterOf("llamacpp:n_decode_total" + rest) == Some(Generation)
    ensures Partition(name).0 == "vllm:iteration_tokens_total_count" ==> CounterOf(name) == Some(Iterations)
    ensures Partition(name).0 == "vllm:num_requests_running" ==> CounterOf(name) == Some(Running)
    ensures Partition(name).0 == "llamacpp:requests_processing" ==> CounterOf(name) == Some(Running)
    ensures CounterOf(name).Some? ==>
              || "vllm:prompt_tokens_total" <= name || "vllm:generation_tokens_total" <= name
              || "llamacpp:prompt_tokens_total" <= name || "llamacpp:n_decode_total" <= name
              || Partition(name).0 in {"vllm:iteration_tokens_total_count", "vllm:num_requests_running",
                                       "llamacpp:requests_processing"}
  {
    hide Partition;
    VllmTokens(rest);
    LlamaTokens(rest);
    ExactNames(name);
  }

  lemma VllmTokens(rest: string)
    ensures CounterOf("vllm:prompt_tokens_total" + rest) == Some(Prompt)
    ensures CounterOf("vllm:generation_tokens_total" + rest) == Some(Generation)
  {
    hide Partition;
    var g := "vllm:generation_tokens_total";
    assert g <= g + rest && (g + rest)[5] == 'g' && "vllm:prompt_tokens_total"[5] == 'p';
    var p := "vllm:prompt_tokens_total";
    assert p <= p + rest;
  }

  lemma LlamaTokens(rest: string)
    ensures CounterOf("llamacpp:prompt_tokens_total" + rest) == Some(Prompt)
    ensures CounterOf("llamacpp:n_decode_total" + rest) == Some(Generation)
  {
    var p, d := "llamacpp:prompt_tokens_total", "llamacpp:n_decode_total";
    assert p <= p + rest && d <= d + rest;
    assert (p + rest)[0] == 'l' && (d + rest)[0] == 'l' && (d + rest)[9] == 'n' && p[9] == 'p';
    NotVllm(p + rest);
    NotVllm(d + rest);
  }

  lemma NotVllm(name: string)
    requires name != "" && name[0] == 'l'
    ensures !("vllm:prompt_tokens_total" <= name) && !("vllm:generation_tokens_total" <= name)
    ensures Partition(name).0 != "vllm:iteration_tokens_total_count" && Partition(name).0 != "vllm:num_requests_running"
  {
    hide Partition;
    assert "vllm:prompt_tokens_total"[0] == 'v' && "vllm:generation_tokens_total"[0] == 'v';
    assert "vllm:iteration_tokens_total_count"[0] == 'v' && "vllm:num_requests_running"[0] == 'v';
    if Partition(name).0 != "" { BareBegins(name, 0); }
  }

  lemma BareBegins(name: string, i: nat)
    requires i < |Partition(name).0|
    ensures i < |name| && name[i] == Partition(name).0[i]
  {
    hide Partition;
    PartitionMeans(name);
  }

  lemma ExactNames(name: string)
    ensures Partition(name).0 == "vllm:iteration_tokens_total_count" ==> CounterOf(name) == Some(Iterations)
    ensures Partition(name).0 == "vllm:num_requests_running" ==> CounterOf(name) == Some(Running)
    ensures Partition(name).0 == "llamacpp:requests_processing" ==> CounterOf(name) == Some(Running)
  {
    hide Partition;
    var bare := Partition(name).0;
    assert "vllm:prompt_tokens_total"[5] == 'p' && "vllm:generation_tokens_total"[5] == 'g';
    assert "vllm:prompt_tokens_total"[0] == 'v' && "vllm:generation_tokens_total"[0] == 'v';
    assert "llamacpp:prompt_tokens_total"[9] == 'p' && "llamacpp:n_decode_total"[9] == 'n';
    if bare == "vllm:iteration_tokens_total_count" {
      BareBegins(name, 5);
      assert name[5] == 'i';
    } else if bare == "vllm:num_requests_running" {
      BareBegins(name, 5);
      assert name[5] == 'n';
    } else if bare == "llamacpp:requests_processing" {
      BareBegins(name, 0);
      BareBegins(name, 9);
      assert name[0] == 'l' && name[9] == 'r';
      assert "vllm:iteration_tokens_total_count"[0] == 'v' && "vllm:num_requests_running"[0] == 'v';
    }
  }

  lemma {:induction false} NoLabels(name: string)
    requires '{' !in name
    ensures Partition(name) == (name, "")
  {
    if name != "" {
      NoLabels(name[1..]);
      assert name == [name[0]] + name[1..];
    }
  }

  lemma OneMoreLine<V>(lines: seq<Line<V>>, i: nat, sel: Selector)
    requires i < |lines|
    ensures multiset(Readings(lines[..i + 1], sel))
            == multiset(Readings(lines[..i], sel)) + multiset(Select(lines[i], sel))
  {
    assert lines[..i + 1][..i] == lines[..i];
  }

  lemma LineTracks(lines: seq<Line<int>>, i: nat, k: Counter, s: KeyState)
    requires i < |lines| && Tracks(multiset(Readings(lines[..i], Feeding(k))), s)
    ensures var l := lines[i];
            Tracks(multiset(Readings(lines[..i + 1], Feeding(k))),
                   if l.Sample? && l.value.Some? && CounterOf(l.name) == Some(k)
                   then Took(s, Partition(l.name).1, l.value.value) else s)
  {
    hide Tracks, CounterOf, Partition, Readings;
    OneMoreLine(lines, i, Feeding(k));
    var bag, more := multiset(Readings(lines[..i], Feeding(k))), Select(lines[i], Feeding(k));
    if more == [] {
      assert bag + multiset(more) == bag;
    } else {
      assert multiset(more) == multiset{more[0]};
      TookTracks(bag, s, more[0]);
    }
  }

  lemma TracksValue(bag: multiset<Reading<int>>, s: KeyState)
    requires Tracks(bag, s)
    ensures s.total == CounterValue(bag)
  {}

  lemma NoReadings(k: Counter)
    ensures Tracks(multiset(Readings([], Feeding(k))), KeyState(None, {}, false))
  {
    EmptyBag<int>();
  }

  /** `probe_progress_counters` on the lines of a 200 response.  Every counter is
      its scraped value; the whole result is `None` when all are absent. */
  method ProbeProgressCounters(lines: seq<Line<int>>) returns (r: Option<map<Counter, Option<int>>>)
    ensures r.Some? ==> forall k :: k in r.value && r.value[k] == Scraped(lines, k)
    ensures r.None? ==> forall k :: Scraped(lines, k) == None
  {
    hide Tracks, Readings, CounterOf, Partition, Took, CounterValue;
    var s := new CounterScrape();
    forall k ensures Tracks(multiset(Readings(lines[..0], Feeding(k))), s.StateFor(k)) {
      NoReadings(k);
    }
    for i := 0 to |lines|
      invariant fresh(s)
      invariant forall k :: Tracks(multiset(Readings(lines[..i], Feeding(k))), s.StateFor(k))
    {
      forall k ensures var l := lines[i];
                       Tracks(multiset(Readings(lines[..i + 1], Feeding(k))),
                              if l.Sample? && l.value.Some? && CounterOf(l.name) == Some(k)
                              then Took(s.StateFor(k), Partition(l.name).1, l.value.value)
                              else s.StateFor(k))
      {
        LineTracks(lines, i, k, s.StateFor(k));
      }
      var l := lines[i];
      if l.Sample? && l.value.Some? {
        var k := CounterOf(l.name);
        if k.Some? {
          s.Take(k.value, Partition(l.name).1, l.value.value);
        }
      }
    }
    assert lines[..|lines|] == lines;
    forall k ensures s.StateFor(k).total == Scraped(lines, k) {
      TracksValue(multiset(Readings(lines, Feeding(k))), s.StateFor(k));
    }
    if s.totals == map[] {
      return None;
    }
    r := Some(map k: Counter | true :: s.StateFor(k).total);
  }

  // ---------------------------------------------------------- the gauge fold

  /** The loop variables of the gauge fold. */
  datatype GaugeState = GaugeState(best: Option<real>, seen: set<string>, malformed: bool)

  function Gauged(s: GaugeState, labels: string, v: Option<real>): GaugeState {
    if v.None? || v.value < 0.0 || labels in s.seen then s.(malformed := true)
    else GaugeState(Some(if s.best.None? then v.value else RMax(s.best.value, v.value)),
                    s.seen + {labels}, s.malformed)
  }

  ghost predicate GaugeTracks(bag: multiset<Reading<real>>, s: GaugeState) {
    && (s.malformed <==> !(NonNegative(bag) && OncePerLabel(bag)))
    && (!s.malformed ==> IsGauge(bag, s.best) && forall l :: l in s.seen <==> LabelIn(bag, l))
  }

  lemma GaugedTracks(bag: multiset<Reading<real>>, s: GaugeState, e: Reading<real>)
    requires GaugeTracks(bag, s)
    ensures GaugeTracks(bag + multiset{e}, Gauged(s, e.0, e.1))
  {
    hide NonNegative, OncePerLabel, LabelIn;
    NonNegativeAdd(bag, e);
    OnceAdd(bag, e);
    forall l ensures LabelIn(bag + multiset{e}, l) <==> LabelIn(bag, l) || l == e.0 {
      LabelsAdd(bag, e, l);
    }
    var more, t := bag + multiset{e}, Gauged(s, e.0, e.1);
    assert e in more;
    if !t.malformed {
      assert !s.malformed;
      forall f | f in more ensures f.1.GetOr(0.0) <= t.best.value {
        if f != e { assert f in bag; }
      }
      if t.best != e.1 {
        var f :| f in bag && f.1 == s.best;
        assert f in more && f.1 == t.best;
      }
    }
  }

  /** `probe_busy_gauge` on the lines of a 200 response. */
  method ProbeBusyGauge(lines: seq<Line<real>>, metric: string) returns (r: Option<real>)
    ensures IsGauge(multiset(Readings(lines, Named(metric))), r)
  {
    hide GaugeTracks, Readings, Partition, IsGauge;
    var best: Option<real>, seen: set<string>, malformed := None, {}, false;
    NoGauge(metric);
    assert lines[..0] == [];
    for i := 0 to |lines|
      invariant GaugeTracks(multiset(Readings(lines[..i], Named(metric))), GaugeState(best, seen, malformed))
    {
      var l := lines[i];
      OneMoreLine(lines, i, Named(metric));
      ghost var bag := multiset(Readings(lines[..i], Named(metric)));
      if l.Skipped? || Partition(l.name).0 != metric {
        assert bag + multiset(Select(l, Named(metric))) == bag;
        continue;
      }
      var labels := Partition(l.name).1;
      assert multiset(Select(l, Named(metric))) == multiset{(labels, l.value)};
      GaugedTracks(bag, GaugeState(best, seen, malformed), (labels, l.value));
      if l.value.None? || l.value.value < 0.0 || labels in seen {
        malformed := true;
        continue;
      }
      seen := seen + {labels};
      best := Some(if best.None? then l.value.value else RMax(best.value, l.value.value));
    }
    assert lines[..|lines|] == lines;
    GaugeResult(multiset(Readings(lines, Named(metric))), GaugeState(best, seen, malformed));
    r := if malformed then None else best;
  }

  lemma NoGauge(metric: string)
    ensures GaugeTracks(multiset(Readings([], Named(metric))), GaugeState(None, {}, false))
  {
    EmptyBag<real>();
  }

  lemma GaugeResult(bag: multiset<Reading<real>>, s: GaugeState)
    requires GaugeTracks(bag, s)
    ensures IsGauge(bag, if s.malformed then None else s.best)
  {}

  /** Permuting the lines of a body does not change the gauge. */
  lemma GaugeOrderFree(l: seq<Line<real>>, m: seq<Line<real>>, metric: string, r: Option<real>, s: Option<real>)
    requires multiset(l) == multiset(m)
    requires IsGauge(multiset(Readings(l, Named(metric))), r) && IsGauge(multiset(Readings(m, Named(metric))), s)
    ensures r == s
  {
    hide IsGauge, Readings;
    SameBag(l, m, Named(metric));
    GaugeUnique(multiset(Readings(l, Named(metric))), r, s);
  }

  lemma GaugeUnique(bag: multiset<Reading<real>>, r: Option<real>, s: Option<real>)
    requires IsGauge(bag, r) && IsGauge(bag, s)
    ensures r == s
  {
    hide NonNegative, OncePerLabel;
    if r.Some? {
      var e :| e in bag && e.1 == r;
      var f :| f in bag && f.1 == s;
      assert e.1.GetOr(0.0) <= s.value && f.1.GetOr(0.0) <= r.value;
    }
  }
}
