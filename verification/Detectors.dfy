/** The two streaming detectors of `correction.py`: a run of blank characters in
    structured content, and a long-period loop in reasoning text.  Each keeps
    bounded memory and is proved to say what a detector with the whole text
    would say, however the text is cut into deltas. */
module Detectors {
  import opened Prelude

  function Join(parts: seq<string>): string {
    if parts == [] then "" else Join(parts[..|parts| - 1]) + parts[|parts| - 1]
  }

  lemma JoinMore(parts: seq<string>, i: nat)
    requires i < |parts|
    ensures Join(parts[..i + 1]) == Join(parts[..i]) + parts[i]
  {
    assert parts[..i + 1][..i] == parts[..i];
  }

  lemma JoinSnoc(parts: seq<string>, x: string)
    ensures Join(parts + [x]) == Join(parts) + x
  {
    assert (parts + [x])[..|parts|] == parts;
  }

  // ---------------------------------------------------------- the blank run

  predicate IsBlankChar(c: char) {
    c in {' ', '\t', '\n', '\r', '\U{b}', '\U{c}', '\U{a0}', '\U{200b}', '\U{200c}', '\U{200d}', '\U{2060}', '\U{feff}'}
  }

  /** The last `t` of the first `n` characters are blank. */
  predicate RunAt(text: string, t: nat, n: nat)
    requires n <= |text|
  {
    t <= n && forall j :: n - t <= j < n ==> IsBlankChar(text[j])
  }

  /** `n` is the end of the first blank run of length `t`. */
  predicate FirstRunAt(text: string, t: nat, n: nat)
    requires n <= |text|
  {
    RunAt(text, t, n) && forall m :: 0 <= m < n ==> !RunAt(text, t, m)
  }

  /** Length of the blank run the text ends with. */
  function Trailing(text: string): (n: nat)
    ensures n <= |text|
  {
    if text == "" || !IsBlankChar(text[|text| - 1]) then 0 else 1 + Trailing(text[..|text| - 1])
  }

  lemma {:induction false} TrailingMeaning(text: string, t: nat)
    ensures Trailing(text) >= t <==> RunAt(text, t, |text|)
  {
    if text != "" && t > 0 {
      var n := |text| - 1;
      if IsBlankChar(text[n]) {
        TrailingMeaning(text[..n], t - 1);
      }
    }
  }

  /** No prefix of the text ends a blank run of length `t`. */
  ghost predicate NoRun(text: string, t: nat) {
    forall m :: 0 <= m <= |text| ==> !RunAt(text, t, m)
  }

  datatype BlankVerdict = BlankVerdict(runChars: nat, contentChars: nat)

  class BlankRunDetector {
    const threshold: nat
    var run: nat
    var contentChars: nat
    var verdict: Option<BlankVerdict>
    ghost var fed: string

    /** Armed and unfired: the counters describe everything fed so far. */
    ghost predicate Watching() reads this {
      && threshold > 0 && verdict.None?
      && run == Trailing(fed) && contentChars == |fed| && NoRun(fed, threshold)
    }

    constructor (threshold: nat)
      ensures this.threshold == threshold && fed == "" && verdict.None?
      ensures threshold > 0 ==> Watching()
    {
      this.threshold, run, contentChars, verdict, fed := threshold, 0, 0, None, "";
    }

    /** Fires on the delta in which the text fed so far gets its first blank run
        of the threshold length; afterwards never again. */
    method Feed(delta: string) returns (r: Option<BlankVerdict>)
      requires Watching() || threshold == 0 || verdict.Some?
      modifies this
      ensures !old(Watching()) ==> r.None? && verdict == old(verdict)
      ensures old(Watching()) ==> fed == old(fed) + delta && r == verdict
      ensures old(Watching()) && r.None? ==> Watching()
      ensures old(Watching()) && r.Some? ==>
                && r.value == BlankVerdict(threshold, |fed|)
                && exists n :: |old(fed)| < n <= |fed| && FirstRunAt(fed, threshold, n)
    {
      hide NoRun, RunAt, FirstRunAt, Trailing;
      if threshold == 0 || verdict.Some? {
        return None;
      }
      ghost var before := fed;
      fed := fed + delta;
      if delta == "" {
        assert fed == before;
        return None;
      }
      contentChars := contentChars + |delta|;
      assert before + delta[..0] == before;
      for i := 0 to |delta|
        invariant fed == before + delta && contentChars == |fed| && verdict.None? && threshold > 0
        invariant run == Trailing(before + delta[..i]) && NoRun(before + delta[..i], threshold)
      {
        ghost var text := before + delta[..i];
        ghost var next := before + delta[..i + 1];
        assert next == text + [delta[i]] && next[..|text|] == text;
        StepRun(text, delta[i], threshold);
        if IsBlankChar(delta[i]) {
          run := run + 1;
          if run >= threshold {
            verdict := Some(BlankVerdict(run, contentChars));
            PrefixRuns(next, fed, threshold);
            assert FirstRunAt(fed, threshold, |next|);
            return verdict;
          }
        } else {
          run := 0;
        }
      }
      assert delta[..|delta|] == delta;
      return None;
    }
  }

  /** One more character: the trailing run grows by one or restarts, and a run
      of length `t` is completed exactly when it reaches `t`. */
  lemma StepRun(text: string, c: char, t: nat)
    requires t > 0 && NoRun(text, t)
    ensures var next := text + [c];
            && Trailing(next) == (if IsBlankChar(c) then Trailing(text) + 1 else 0)
            && Trailing(next) <= t
            && (Trailing(next) < t ==> NoRun(next, t))
            && (Trailing(next) >= t ==> FirstRunAt(next, t, |next|))
  {
    var next := text + [c];
    assert next[..|text|] == text;
    TrailingMeaning(next, t);
    TrailingMeaning(text, t);
    forall m | 0 <= m <= |text| ensures !RunAt(next, t, m) {
      assert !RunAt(text, t, m);
      SamePrefixRun(text, next, t, m);
    }
  }

  lemma SamePrefixRun(p: string, s: string, t: nat, n: nat)
    requires p <= s && n <= |p|
    ensures RunAt(p, t, n) <==> RunAt(s, t, n)
  {}

  lemma PrefixRuns(p: string, s: string, t: nat)
    requires p <= s && FirstRunAt(p, t, |p|)
    ensures FirstRunAt(s, t, |p|)
  {
    forall m | 0 <= m <= |p| ensures RunAt(p, t, m) <==> RunAt(s, t, m) {
      SamePrefixRun(p, s, t, m);
    }
  }

  /** A whole stream of deltas through one detector.  It fires exactly when the
      concatenated text has a blank run of the threshold length, in the delta
      that holds the end of the first such run, once, and with the threshold as
      run length. */
  method WatchBlankRun(threshold: nat, deltas: seq<string>) returns (fired: Option<nat>, v: Option<BlankVerdict>)
    ensures var text := Join(deltas);
            && (fired.Some? <==> threshold > 0 && exists n :: 0 <= n <= |text| && RunAt(text, threshold, n))
            && (fired.Some? ==>
                  && fired.value < |deltas| && v.Some?
                  && v.value == BlankVerdict(threshold, |Join(deltas[..fired.value + 1])|)
                  && exists n :: |Join(deltas[..fired.value])| < n <= |Join(deltas[..fired.value + 1])| <= |text|
                       && FirstRunAt(text, threshold, n))
  {
    var d := new BlankRunDetector(threshold);
    fired, v := None, None;
    for i := 0 to |deltas|
      invariant fresh(d) && d.threshold == threshold
      invariant threshold > 0 && fired.None? ==> d.Watching() && d.fed == Join(deltas[..i])
      invariant threshold == 0 ==> fired.None?
      invariant fired.Some? ==> d.verdict.Some? && v.Some? && fired.value < i && FiredIn(deltas, threshold, fired.value, v.value)
    {
      JoinMore(deltas, i);
      var r := d.Feed(deltas[i]);
      if r.Some? {
        fired, v := Some(i), r;
        assert FiredIn(deltas, threshold, i, r.value);
      }
    }
    assert deltas[..|deltas|] == deltas;
    if fired.Some? {
      FiredMeans(deltas, threshold, fired.value, v.value);
    } else if threshold > 0 {
      assert NoRun(Join(deltas), threshold);
    }
  }

  /** The detector fired on delta `i`: seen from the text up to that delta. */
  ghost predicate FiredIn(deltas: seq<string>, t: nat, i: nat, v: BlankVerdict)
    requires i < |deltas|
  {
    var now := Join(deltas[..i + 1]);
    && v == BlankVerdict(t, |now|)
    && exists n :: |Join(deltas[..i])| < n <= |now| && FirstRunAt(now, t, n)
  }

  lemma FiredMeans(deltas: seq<string>, t: nat, i: nat, v: BlankVerdict)
    requires i < |deltas| && FiredIn(deltas, t, i, v)
    ensures var text, now := Join(deltas), Join(deltas[..i + 1]);
            && |now| <= |text|
            && (exists n :: |Join(deltas[..i])| < n <= |now| && FirstRunAt(text, t, n))
            && (exists n :: 0 <= n <= |text| && RunAt(text, t, n))
  {
    var text, now := Join(deltas), Join(deltas[..i + 1]);
    JoinPrefix(deltas, i + 1);
    var n :| |Join(deltas[..i])| < n <= |now| && FirstRunAt(now, t, n);
    forall m | 0 <= m <= n ensures RunAt(now, t, m) <==> RunAt(text, t, m) {
      SamePrefixRun(now, text, t, m);
    }
    assert FirstRunAt(text, t, n);
  }

  lemma {:induction false} JoinPrefix(parts: seq<string>, i: nat)
    requires i <= |parts|
    ensures Join(parts[..i]) <= Join(parts)
  {
    if i == |parts| {
      assert parts[..i] == parts;
    } else {
      var n := |parts| - 1;
      JoinPrefix(parts[..n], i);
      assert parts[..n][..i] == parts[..i];
    }
  }

  // ------------------------------------------------------ the reasoning loop

  const GRAM: nat := 24
  const HEAD_CHARS: nat := 12000

  /** `text[-window:]` */
  function Tail(text: string, window: nat): string {
    if |text| <= window then text else text[|text| - window..]
  }

  function GramAt(text: string, i: nat): string
    requires i + GRAM <= |text|
  {
    text[i..i + GRAM]
  }

  function Grams(text: string): set<string> {
    set i | 0 <= i <= |text| - GRAM :: GramAt(text, i)
  }

  /** Distinct shingles over all shingles in the last `window` characters; 1 when
      there is none. */
  function Ratio(text: string, window: nat): real {
    var tail := Tail(text, window);
    if |tail| < GRAM then 1.0 else (|Grams(tail)| as real) / ((|tail| - GRAM + 1) as real)
  }

  method DistinctGramRatioOver(text: string, window: nat) returns (r: real)
    ensures r == Ratio(text, window)
  {
    var tail := Tail(text, window);
    var n := |tail| - GRAM + 1;
    if n <= 0 {
      return 1.0;
    }
    var grams: set<string> := {};
    for i := 0 to n
      invariant grams == set j | 0 <= j < i :: GramAt(tail, j)
    {
      grams := grams + {GramAt(tail, i)};
    }
    assert grams == Grams(tail);
    r := (|grams| as real) / (n as real);
  }

  datatype Settings = Settings(window: nat, minChars: nat, maxDistinct: real, checkEvery: nat) {
    predicate Armed() {
      window > 0 && minChars > 0 && checkEvery > 0 && 0.0 < maxDistinct < 1.0
    }
  }

  datatype LoopVerdict = LoopVerdict(ratio: real, seen: nat)

  /** A detector that keeps the whole text. */
  datatype Reference = Reference(text: string, nextCheck: nat, verdict: Option<LoopVerdict>)

  function NewReference(c: Settings): Reference { Reference("", Max(c.minChars, 1), None) }

  predicate CheckDue(c: Settings, r: Reference, text: string) {
    |text| >= c.minChars && |text| >= r.nextCheck
  }

  function ReferenceFeed(c: Settings, r: Reference, delta: string): Reference {
    if !c.Armed() || r.verdict.Some? || delta == "" then r
    else
      var text := r.text + delta;
      if !CheckDue(c, r, text) then r.(text := text)
      else
        var ratio := Ratio(text, c.window);
        Reference(text, |text| + c.checkEvery,
                  if ratio > c.maxDistinct then None else Some(LoopVerdict(ratio, |text|)))
  }

  function ReferenceRun(c: Settings, deltas: seq<string>): Reference {
    if deltas == [] then NewReference(c)
    else ReferenceFeed(c, ReferenceRun(c, deltas[..|deltas| - 1]), deltas[|deltas| - 1])
  }

  /** A suffix that is long enough has the same tail as the whole text. */
  lemma TailOfSuffix(text: string, k: nat, window: nat)
    requires k <= |text| && |text| - k >= Min(|text|, window)
    ensures Tail(text[k..], window) == Tail(text, window)
  {
    if |text| > window {
      assert text[k..][|text| - k - window..] == text[|text| - window..];
    }
  }

  lemma SuffixGrows(text: string, more: string, n: nat)
    requires n <= |text|
    ensures text[|text| - n..] + more == (text + more)[|text + more| - (n + |more|)..]
  {}

  lemma SuffixOfSuffix(text: string, n: nat, m: nat)
    requires m <= n <= |text|
    ensures text[|text| - n..][n - m..] == text[|text| - m..]
  {}

  lemma JoinOne(s: string)
    ensures Join([s]) == s
  {
    assert [s][..0] == [];
  }

  lemma RatioOfSuffix(text: string, k: nat, window: nat)
    requires k <= |text| && |text| - k >= Min(|text|, window)
    ensures Ratio(text[k..], window) == Ratio(text, window)
  {
    TailOfSuffix(text, k, window);
  }

  class ReasoningLoopDetector {
    const c: Settings
    var buf: seq<string>
    var bufLen: nat
    var seen: nat
    var nextCheck: nat
    var verdict: Option<LoopVerdict>
    var head: seq<string>
    var headLen: nat
    ghost var fed: string

    /** The detector that keeps the whole text, in the state this one stands for. */
    ghost function View(): Reference reads this { Reference(fed, nextCheck, verdict) }

    /** The buffer is a suffix of everything fed, long enough for the next check
        and never longer than two windows; the head is the exact prefix. */
    ghost predicate Valid() reads this {
      && bufLen == |Join(buf)| && seen == |fed| && bufLen <= seen
      && Join(buf) == fed[seen - bufLen..]
      && Min(seen, c.window) <= bufLen <= 2 * c.window
      && headLen == |Join(head)| && Join(head) == fed[..Min(seen, HEAD_CHARS)]
    }

    constructor (c: Settings)
      ensures this.c == c && Valid() && View() == NewReference(c)
    {
      this.c := c;
      buf, bufLen, seen, head, headLen := [], 0, 0, [], 0;
      nextCheck, verdict, fed := Max(c.minChars, 1), None, "";
    }

    /** Keep the first characters, up to the cap. */
    method KeepHead(delta: string)
      requires headLen == |Join(head)| && seen == |fed| && Join(head) == fed[..Min(seen, HEAD_CHARS)]
      modifies this`head, this`headLen
      ensures headLen == |Join(head)|
      ensures Join(head) == (fed + delta)[..Min(seen + |delta|, HEAD_CHARS)]
    {
      if headLen < HEAD_CHARS {
        var room := HEAD_CHARS - headLen;
        var kept := delta[..Min(|delta|, room)];
        JoinSnoc(head, kept);
        head := head + [kept];
        headLen := headLen + Min(|delta|, room);
        assert (fed + delta)[..Min(seen + |delta|, HEAD_CHARS)] == fed + kept;
        assert fed[..Min(seen, HEAD_CHARS)] == fed;
      } else {
        assert (fed + delta)[..HEAD_CHARS] == fed[..HEAD_CHARS];
      }
    }

    /** Append to the buffer, and collapse it once it has grown past two windows. */
    method KeepTail(delta: string)
      requires bufLen == |Join(buf)| && seen == |fed| && bufLen <= seen
      requires Join(buf) == fed[seen - bufLen..] && Min(seen, c.window) <= bufLen
      modifies this`buf, this`bufLen
      ensures var text := fed + delta;
              && bufLen == |Join(buf)| && bufLen <= |text|
              && Join(buf) == text[|text| - bufLen..]
              && Min(|text|, c.window) <= bufLen <= 2 * c.window
    {
      hide Join;
      ghost var text := fed + delta;
      JoinSnoc(buf, delta);
      SuffixGrows(fed, delta, bufLen);
      buf := buf + [delta];
      bufLen := bufLen + |delta|;
      if bufLen > c.window * 2 {
        var whole := JoinAll(buf);
        var tail := whole[|whole| - c.window..];
        SuffixOfSuffix(text, bufLen, c.window);
        buf := [tail];
        JoinOne(tail);
        bufLen := |tail|;
      }
    }

    method Keep(delta: string)
      requires Valid()
      modifies this`head, this`headLen, this`buf, this`bufLen, this`fed, this`seen
      ensures Valid() && fed == old(fed) + delta
    {
      hide Join;
      KeepHead(delta);
      KeepTail(delta);
      fed, seen := fed + delta, seen + |delta|;
    }

    method Feed(delta: string) returns (r: Option<LoopVerdict>)
      requires Valid()
      modifies this
      ensures Valid() && View() == ReferenceFeed(c, old(View()), delta)
      ensures r == if old(verdict).Some? then None else verdict
    {
      hide Ratio, Join;
      if !c.Armed() || verdict.Some? || delta == "" {
        return None;
      }
      Keep(delta);
      if seen < c.minChars || seen < nextCheck {
        return None;
      }
      nextCheck := seen + c.checkEvery;
      var text := JoinAll(buf);
      var ratio := DistinctGramRatioOver(text, c.window);
      RatioOfSuffix(fed, seen - bufLen, c.window);
      if ratio > c.maxDistinct {
        return None;
      }
      verdict := Some(LoopVerdict(ratio, seen));
      r := verdict;
    }
  }

  /** `"".join(parts)` */
  method JoinAll(parts: seq<string>) returns (s: string)
    ensures s == Join(parts)
  {
    s := "";
    for i := 0 to |parts|
      invariant s == Join(parts[..i])
    {
      JoinMore(parts, i);
      s := s + parts[i];
    }
    assert parts[..|parts|] == parts;
  }

  // ------------------------------------------- what a stream of deltas amounts to

  /** Every threshold is declared, and the share is a proper one. */
  predicate Declared(c: Settings) {
    c.window > 0 && c.minChars > 0 && c.checkEvery > 0 && 0.0 < c.maxDistinct && c.maxDistinct < 1.0
  }

  /** A text of this length is due, given the length at the last check. */
  predicate Due(c: Settings, last: Option<nat>, len: nat) {
    len >= c.minChars && (last.Some? ==> len >= last.value + c.checkEvery)
  }

  /** The length of the text at the last check among these deltas: a check takes
      place after a delta that brings something, when the text has the minimum
      length and is an interval longer than at the check before. */
  function LastCheck(c: Settings, deltas: seq<string>): Option<nat> {
    if deltas == [] then None
    else
      var n := |deltas| - 1;
      var last := LastCheck(c, deltas[..n]);
      if deltas[n] != "" && Due(c, last, |Join(deltas)|) then Some(|Join(deltas)|) else last
  }

  /** The text after the first `n` deltas is checked. */
  predicate Checked(c: Settings, deltas: seq<string>, n: nat) {
    0 < n <= |deltas| && deltas[n - 1] != "" && Due(c, LastCheck(c, deltas[..n - 1]), |Join(deltas[..n])|)
  }

  function ShingleAt(text: string, i: nat): string
    requires i + 24 <= |text|
  {
    text[i..i + 24]
  }

  /** The distinct shingles of 24 characters in the last `window` characters. */
  function Shingles(text: string, window: nat): set<string> {
    var from := |text| - Min(|text|, window);
    set i | from <= i <= |text| - 24 :: ShingleAt(text, i)
  }

  /** How many shingles there are, repeated ones counted again. */
  function ShingleCount(text: string, window: nat): int {
    Min(|text|, window) - 23
  }

  /** There is a shingle, and the distinct ones are at most the given share. */
  predicate Loops(c: Settings, text: string) {
    var n := ShingleCount(text, c.window);
    n >= 1 && |Shingles(text, c.window)| as real <= c.maxDistinct * (n as real)
  }

  lemma SliceOfSuffix(text: string, from: nat, i: nat)
    requires from + i + 24 <= |text|
    ensures text[from..][i..i + 24] == text[from + i..from + i + 24]
  {
    var a, b := text[from..][i..i + 24], text[from + i..from + i + 24];
    assert |a| == 24 && |b| == 24;
    forall j | 0 <= j < 24 ensures a[j] == b[j] {
      assert a[j] == text[from..][i + j] && b[j] == text[from + i + j];
    }
  }

  lemma ShinglesAreGrams(text: string, window: nat)
    ensures Grams(Tail(text, window)) == Shingles(text, window)
  {
    var from := |text| - Min(|text|, window);
    var tail := Tail(text, window);
    assert tail == text[from..];
    forall i | 0 <= i <= |tail| - 24 ensures GramAt(tail, i) == ShingleAt(text, from + i) {
      SliceOfSuffix(text, from, i);
    }
    forall x ensures x in Grams(tail) <==> x in Shingles(text, window) {
      if x in Grams(tail) {
        var i :| 0 <= i <= |tail| - GRAM && GramAt(tail, i) == x;
        assert ShingleAt(text, from + i) == x;
      }
      if x in Shingles(text, window) {
        var i :| from <= i <= |text| - 24 && ShingleAt(text, i) == x;
        assert GramAt(tail, i - from) == ShingleAt(text, from + (i - from));
      }
    }
  }

  lemma ShareBound(k: real, n: real, bound: real)
    requires n > 0.0
    ensures k / n <= bound <==> k <= bound * n
  {
    var q := k / n;
    assert k == q * n;
    if q <= bound { assert (bound - q) * n >= 0.0; } else { assert (q - bound) * n > 0.0; }
  }

  lemma LoopsByRatio(c: Settings, text: string)
    requires c.Armed()
    ensures Ratio(text, c.window) <= c.maxDistinct <==> Loops(c, text)
    ensures Loops(c, text) ==>
              Ratio(text, c.window) == |Shingles(text, c.window)| as real / (ShingleCount(text, c.window) as real)
  {
    ShinglesAreGrams(text, c.window);
    var n := ShingleCount(text, c.window);
    if n >= 1 {
      ShareBound(|Shingles(text, c.window)| as real, n as real, c.maxDistinct);
    }
  }

  /** After how many deltas a looping text is first found by a check. */
  function FirstLoop(c: Settings, deltas: seq<string>): Option<nat> {
    if deltas == [] then None
    else
      var n := |deltas|;
      var earlier := FirstLoop(c, deltas[..n - 1]);
      if earlier.Some? then earlier
      else if Checked(c, deltas, n) && Loops(c, Join(deltas)) then Some(n) else None
  }

  predicate FoundAt(c: Settings, deltas: seq<string>, n: nat) {
    n <= |deltas| && Checked(c, deltas, n) && Loops(c, Join(deltas[..n]))
  }

  lemma FoundEarlier(c: Settings, deltas: seq<string>, m: nat, n: nat)
    requires n <= m <= |deltas|
    ensures FoundAt(c, deltas[..m], n) <==> FoundAt(c, deltas, n)
  {
    assert deltas[..m][..n] == deltas[..n];
    if n > 0 { assert deltas[..m][..n - 1] == deltas[..n - 1]; }
  }

  lemma {:induction false} FirstLoopIsFirst(c: Settings, deltas: seq<string>)
    ensures var f := FirstLoop(c, deltas);
            && (f.Some? ==> f.value <= |deltas| && FoundAt(c, deltas, f.value) && forall m :: 0 <= m < f.value ==> !FoundAt(c, deltas, m))
            && (f.None? ==> forall m :: 0 <= m <= |deltas| ==> !FoundAt(c, deltas, m))
  {
    hide FoundAt, Loops, Join;
    if deltas == [] {
      NoneFound(c);
    } else {
      var n := |deltas| - 1;
      FirstLoopIsFirst(c, deltas[..n]);
      forall m | 0 <= m <= n ensures FoundAt(c, deltas[..n], m) <==> FoundAt(c, deltas, m) {
        FoundEarlier(c, deltas, n, m);
      }
      assert deltas[..n + 1] == deltas;
      FoundHere(c, deltas);
    }
  }

  lemma NoneFound(c: Settings)
    ensures !FoundAt(c, [], 0)
  {}

  lemma FoundHere(c: Settings, deltas: seq<string>)
    ensures FoundAt(c, deltas, |deltas|) <==> Checked(c, deltas, |deltas|) && Loops(c, Join(deltas))
  {
    assert deltas[..|deltas|] == deltas;
  }

  /** The reference detector checks at the checks, and reports the first loop. */
  lemma {:induction false} ReferenceFinds(c: Settings, deltas: seq<string>)
    requires c.Armed()
    ensures var r, f := ReferenceRun(c, deltas), FirstLoop(c, deltas);
            && (r.verdict.Some? <==> f.Some?)
            && (f.None? ==>
                  && r.text == Join(deltas)
                  && r.nextCheck == (var l := LastCheck(c, deltas); if l.Some? then l.value + c.checkEvery else c.minChars))
            && (f.Some? ==>
                  && f.value <= |deltas|
                  && var text := Join(deltas[..f.value]);
                     r.verdict.value == LoopVerdict(Ratio(text, c.window), |text|))
  {
    hide Ratio, Loops;
    if deltas != [] {
      var n := |deltas| - 1;
      ReferenceFinds(c, deltas[..n]);
      var f := FirstLoop(c, deltas[..n]);
      assert deltas[..n + 1] == deltas;
      if f.Some? {
        assert deltas[..n][..f.value] == deltas[..f.value];
      } else {
        LoopsByRatio(c, Join(deltas));
      }
    }
  }

  /** A verdict is given exactly when some checked prefix of the text loops, and
      carries the share of distinct shingles and the length of the first such
      prefix. */
  lemma VerdictMeans(c: Settings, deltas: seq<string>)
    ensures var v := ReferenceRun(c, deltas).verdict;
            && (v.Some? <==> Declared(c) && exists n :: 0 <= n <= |deltas| && FoundAt(c, deltas, n))
            && (v.Some? ==>
                  exists n :: 0 <= n <= |deltas| && FoundAt(c, deltas, n)
                    && (forall m :: 0 <= m < n ==> !FoundAt(c, deltas, m))
                    && var text := Join(deltas[..n]);
                       ShingleCount(text, c.window) >= 1
                       && v.value == LoopVerdict(|Shingles(text, c.window)| as real / (ShingleCount(text, c.window) as real), |text|))
  {
    hide Join, Ratio, Shingles, ReferenceFeed, FirstLoop, Checked;
    if !c.Armed() {
      NeverArmed(c, deltas);
    } else {
      ReferenceFinds(c, deltas);
      FirstLoopIsFirst(c, deltas);
      var f := FirstLoop(c, deltas);
      if f.Some? {
        LoopsByRatio(c, Join(deltas[..f.value]));
      }
    }
  }

  lemma {:induction false} NeverArmed(c: Settings, deltas: seq<string>)
    requires !c.Armed()
    ensures ReferenceRun(c, deltas).verdict.None?
  {
    if deltas != [] { NeverArmed(c, deltas[..|deltas| - 1]); }
  }

  /** A whole stream through the bounded detector ends with the verdict of the
      unbounded one, and with the exact head of what was fed. It reports a loop
      exactly when some checked prefix loops, with the figures of the first such
      prefix. */
  method WatchReasoning(c: Settings, deltas: seq<string>) returns (v: Option<LoopVerdict>, head: string)
    ensures v == ReferenceRun(c, deltas).verdict
    ensures v.Some? <==> Declared(c) && exists n :: 0 <= n <= |deltas| && FoundAt(c, deltas, n)
    ensures v.Some? ==>
              exists n :: 0 <= n <= |deltas| && FoundAt(c, deltas, n)
                && (forall m :: 0 <= m < n ==> !FoundAt(c, deltas, m))
                && var text := Join(deltas[..n]);
                   ShingleCount(text, c.window) >= 1
                   && v.value == LoopVerdict(|Shingles(text, c.window)| as real / (ShingleCount(text, c.window) as real), |text|)
    ensures var text := ReferenceRun(c, deltas).text; head == text[..Min(|text|, 12000)]
  {
    var d := new ReasoningLoopDetector(c);
    assert deltas[..0] == [];
    for i := 0 to |deltas|
      invariant fresh(d) && d.c == c && d.Valid() && d.View() == ReferenceRun(c, deltas[..i])
    {
      assert deltas[..i + 1][..i] == deltas[..i];
      var _ := d.Feed(deltas[i]);
    }
    assert deltas[..|deltas|] == deltas;
    v := d.verdict;
    head := JoinAll(d.head);
    VerdictMeans(c, deltas);
  }

  /** Up to the first verdict the reference has seen exactly the text fed. */
  lemma {:induction false} ReferenceSeesAll(c: Settings, deltas: seq<string>)
    requires c.Armed() && ReferenceRun(c, deltas).verdict.None?
    ensures ReferenceRun(c, deltas).text == Join(deltas)
  {
    if deltas != [] {
      var n := |deltas| - 1;
      ReferenceSeesAll(c, deltas[..n]);
    }
  }

  /** The next check is never more than one interval away, so a further delta of
      `checkEvery` characters past the minimum is always judged: checking cannot
      go silent. */
  lemma {:induction false} NeverSilent(c: Settings, deltas: seq<string>, delta: string)
    requires c.Armed() && ReferenceRun(c, deltas).verdict.None?
    ensures var r := ReferenceRun(c, deltas);
            && c.minChars <= r.nextCheck && |r.text| < r.nextCheck
            && r.nextCheck <= Max(c.minChars, |r.text| + c.checkEvery)
            && (|delta| >= c.checkEvery && |r.text| + |delta| >= c.minChars ==> CheckDue(c, r, r.text + delta))
  {
    if deltas != [] {
      var n := |deltas| - 1;
      NeverSilent(c, deltas[..n], "");
    }
  }
}
