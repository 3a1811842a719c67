/** The cache against its history: it agrees with the last write, it never grows
    past its size, and it forgets a key only when it must. */
module CacheRuns {
  import opened Prelude
  import opened ResponseCache

  // ----------------------------------------------------------------- history

  datatype Op<+V> = Get(k: string, now: real) | Put(k: string, v: V, now: real)

  /** What an operation turned out to do. */
  datatype Event<+V> =
    | DidPut(k: string, v: V, at: real)
    | DidHit(k: string, v: V, at: real)
    | DidMiss(k: string, expired: bool, at: real)

  datatype Trace<+V> = Trace(cache: Cache<V>, log: seq<Event<V>>)

  function Did<V>(c: Cache<V>, op: Op<V>): Event<V> {
    match op
    case Put(k, v, now) => DidPut(k, v, now)
    case Get(k, now) =>
      var r := Got(c, k, now).1;
      if r.Some? then DidHit(k, r.value, now) else DidMiss(k, k in c.entries, now)
  }

  function Next<V>(c: Cache<V>, op: Op<V>, ttl: real, max: nat): Cache<V> {
    match op
    case Put(k, v, now) => Stored(c, k, v, now, ttl, max)
    case Get(k, now) => Got(c, k, now).0
  }

  function Run<V>(ops: seq<Op<V>>, ttl: real, max: nat): Trace<V> {
    if ops == [] then Trace(Cache([], map[]), [])
    else
      var t := Run(ops[..|ops| - 1], ttl, max);
      var op := ops[|ops| - 1];
      Trace(Next(t.cache, op, ttl, max), t.log + [Did(t.cache, op)])
  }

  /** The value and time of the latest put of a key. */
  function LastPut<V>(log: seq<Event<V>>, k: string): Option<(V, real)> {
    if log == [] then None
    else
      var e := log[|log| - 1];
      if e.DidPut? && e.k == k then Some((e.v, e.at)) else LastPut(log[..|log| - 1], k)
  }

  predicate Touches<V>(e: Event<V>, k: string) {
    !e.DidMiss? && e.k == k
  }

  /** The other keys put or hit since the key itself was last put or hit. */
  function Since<V>(log: seq<Event<V>>, k: string): set<string> {
    if log == [] then {}
    else
      var e := log[|log| - 1];
      if Touches(e, k) then {}
      else Since(log[..|log| - 1], k) + (if e.DidMiss? then {} else {e.k})
  }

  /** When the key was dropped as expired since its latest put. */
  function DroppedAt<V>(log: seq<Event<V>>, k: string): Option<real> {
    if log == [] then None
    else
      var e := log[|log| - 1];
      if e.DidPut? && e.k == k then None
      else if e.DidMiss? && e.expired && e.k == k then Some(e.at)
      else DroppedAt(log[..|log| - 1], k)
  }

  // ------------------------------------------------------------ recency order

  /** The keys touched more recently than `k`. */
  function Newer(order: seq<string>, k: string): set<string> {
    if order == [] then {}
    else if order[0] == k then set x | x in order[1..]
    else Newer(order[1..], k)
  }

  lemma {:induction false} WithoutMembers(order: seq<string>, k: string, x: string)
    requires Distinct(order)
    ensures x in Without(order, k) <==> x in order && x != k
  {
    if order != [] {
      assert order == [order[0]] + order[1..];
      WithoutMembers(order[1..], k, x);
    }
  }

  lemma {:induction false} WithoutDistinct(order: seq<string>, k: string)
    requires Distinct(order)
    ensures Distinct(Without(order, k))
    ensures |Without(order, k)| == |order| - (if k in order then 1 else 0)
  {
    if order != [] && order[0] != k {
      assert order == [order[0]] + order[1..];
      WithoutDistinct(order[1..], k);
      WithoutMembers(order[1..], k, order[0]);
    }
  }

  lemma TouchFacts(order: seq<string>, k: string)
    requires Distinct(order)
    ensures Distinct(Touch(order, k)) && forall x :: x in Touch(order, k) <==> x in order || x == k
    ensures |Touch(order, k)| == |order| + (if k in order then 0 else 1)
  {
    WithoutDistinct(order, k);
    forall x ensures x in Without(order, k) <==> x in order && x != k {
      WithoutMembers(order, k, x);
    }
  }

  lemma {:induction false} NewerWithout(order: seq<string>, k: string, x: string)
    requires Distinct(order) && x in order && x != k
    ensures Newer(Without(order, k), x) == Newer(order, x) - {k}
  {
    assert order == [order[0]] + order[1..];
    if order[0] == k {
      NewerExcludes(order[1..], x, k);
    } else if order[0] == x {
      forall y ensures y in Without(order[1..], k) <==> y in order[1..] && y != k {
        WithoutMembers(order[1..], k, y);
      }
      assert Without(order, k)[1..] == Without(order[1..], k);
    } else {
      NewerWithout(order[1..], k, x);
      assert Without(order, k)[1..] == Without(order[1..], k);
    }
  }

  lemma {:induction false} NewerExcludes(order: seq<string>, x: string, k: string)
    requires k !in order
    ensures k !in Newer(order, x)
  {
    if order != [] && order[0] != x {
      NewerExcludes(order[1..], x, k);
    }
  }

  lemma {:induction false} NewerAppend(order: seq<string>, k: string, x: string)
    requires k !in order && x in order
    ensures Newer(order + [k], x) == Newer(order, x) + {k}
  {
    assert order == [order[0]] + order[1..];
    assert (order + [k])[1..] == order[1..] + [k];
    if order[0] != x {
      NewerAppend(order[1..], k, x);
    }
  }

  lemma {:induction false} NewerOfLast(order: seq<string>, k: string)
    requires k !in order
    ensures Newer(order + [k], k) == {}
  {
    if order != [] {
      assert (order + [k])[0] == order[0] && (order + [k])[1..] == order[1..] + [k];
      NewerOfLast(order[1..], k);
    } else {
      assert (order + [k])[1..] == [];
    }
  }

  /** Touching `k` makes it newer than everything, and changes nothing else. */
  lemma NewerTouch(order: seq<string>, k: string, x: string)
    requires Distinct(order) && (x == k || x in order)
    ensures Newer(Touch(order, k), x) == if x == k then {} else Newer(order, x) + {k}
  {
    WithoutMembers(order, k, k);
    if x == k {
      NewerOfLast(Without(order, k), k);
    } else {
      WithoutMembers(order, k, x);
      NewerAppend(Without(order, k), k, x);
      NewerWithout(order, k, x);
    }
  }

  /** The keys newer than `k` are distinct, and are all but the older ones. */
  lemma {:induction false} NewerCount(order: seq<string>, k: string)
    requires Distinct(order) && k in order
    ensures |Newer(order, k)| < |order|
    ensures order[0] == k ==> |Newer(order, k)| == |order| - 1
  {
    assert order == [order[0]] + order[1..];
    if order[0] == k {
      SetOfDistinct(order[1..]);
    } else {
      NewerCount(order[1..], k);
    }
  }

  lemma {:induction false} SetOfDistinct(s: seq<string>)
    requires Distinct(s)
    ensures |set x | x in s| == |s|
  {
    if s != [] {
      assert s == [s[0]] + s[1..];
      SetOfDistinct(s[1..]);
      assert (set x | x in s) == {s[0]} + set x | x in s[1..];
    } else {
      assert (set x | x in s) == {};
    }
  }

  // --------------------------------------------------------------- invariant

  /** What the cache knows about one key, in terms of the history alone. */
  ghost predicate KeyAgrees<V>(t: Trace<V>, ttl: real, max: nat, k: string) {
    && (k in t.cache.entries ==>
          && LastPut(t.log, k).Some?
          && t.cache.entries[k] == (LastPut(t.log, k).value.1 + ttl, LastPut(t.log, k).value.0)
          && DroppedAt(t.log, k).None?
          && Newer(t.cache.order, k) <= Since(t.log, k)
          && forall x :: x in Since(t.log, k) ==> x in Newer(t.cache.order, k) || DroppedAt(t.log, x).Some?)
    && (k !in t.cache.entries && LastPut(t.log, k).Some? ==>
          || |Since(t.log, k)| >= max
          || (DroppedAt(t.log, k).Some? && DroppedAt(t.log, k).value > LastPut(t.log, k).value.1 + ttl))
  }

  ghost predicate Agrees<V>(t: Trace<V>, ttl: real, max: nat) {
    && Valid(t.cache) && |t.cache.order| <= max
    && forall k :: KeyAgrees(t, ttl, max, k)
  }

  lemma Logged<V>(log: seq<Event<V>>, e: Event<V>, k: string)
    ensures LastPut(log + [e], k) == if e.DidPut? && e.k == k then Some((e.v, e.at)) else LastPut(log, k)
    ensures Since(log + [e], k) == if Touches(e, k) then {} else Since(log, k) + (if e.DidMiss? then {} else {e.k})
    ensures DroppedAt(log + [e], k) == if e.DidPut? && e.k == k then None
                                       else if e.DidMiss? && e.expired && e.k == k then Some(e.at)
                                       else DroppedAt(log, k)
  {
    assert (log + [e])[..|log|] == log;
  }

  lemma Bigger(a: set<string>, b: set<string>)
    requires a <= b
    ensures |a| <= |b|
  {
    if a != b {
      assert |b| == |a| + |b - a| by { assert b == a + (b - a); }
    }
  }

  // ---------------------------------------------------------------- one step

  lemma MissKeeps<V>(t: Trace<V>, k: string, now: real, ttl: real, max: nat)
    requires Agrees(t, ttl, max) && k !in t.cache.entries
    ensures Agrees(Trace(t.cache, t.log + [DidMiss(k, false, now)]), ttl, max)
  {
    var u := Trace(t.cache, t.log + [DidMiss(k, false, now)]);
    forall x ensures KeyAgrees(u, ttl, max, x) {
      assert KeyAgrees(t, ttl, max, x);
      forall y ensures DroppedAt(u.log, y) == DroppedAt(t.log, y) { Logged(t.log, DidMiss(k, false, now), y); }
      Logged(t.log, DidMiss(k, false, now), x);
    }
  }

  lemma ExpireKeeps<V>(t: Trace<V>, k: string, now: real, ttl: real, max: nat)
    requires Agrees(t, ttl, max) && k in t.cache.entries && now > t.cache.entries[k].0
    ensures Agrees(Trace(Got(t.cache, k, now).0, t.log + [DidMiss(k, true, now)]), ttl, max)
  {
    var e: Event<V> := DidMiss(k, true, now);
    var u := Trace(Got(t.cache, k, now).0, t.log + [e]);
    WithoutDistinct(t.cache.order, k);
    forall x ensures x in u.cache.order <==> x in u.cache.entries {
      WithoutMembers(t.cache.order, k, x);
    }
    forall x ensures KeyAgrees(u, ttl, max, x) {
      ExpireKey(t, u, k, now, ttl, max, x);
    }
  }

  lemma ExpireKey<V>(t: Trace<V>, u: Trace<V>, k: string, now: real, ttl: real, max: nat, x: string)
    requires Agrees(t, ttl, max) && k in t.cache.entries && now > t.cache.entries[k].0
    requires u == Trace(Got(t.cache, k, now).0, t.log + [DidMiss(k, true, now)])
    ensures KeyAgrees(u, ttl, max, x)
  {
    hide LastPut, Since, DroppedAt, Newer, Without;
    var e: Event<V> := DidMiss(k, true, now);
    assert KeyAgrees(t, ttl, max, x) && KeyAgrees(t, ttl, max, k);
    forall y ensures DroppedAt(u.log, y) == if y == k then Some(now) else DroppedAt(t.log, y) {
      Logged(t.log, e, y);
    }
    Logged(t.log, e, x);
    if x != k && x in t.cache.entries {
      NewerWithout(t.cache.order, k, x);
    }
  }

  /** A hit or a put of `k`: `k` becomes the newest key. */
  lemma TouchKey<V>(t: Trace<V>, u: Trace<V>, e: Event<V>, ttl: real, max: nat, x: string)
    requires Agrees(t, ttl, max) && u.log == t.log + [e] && u.cache.order == Touch(t.cache.order, e.k)
    requires e.DidHit? ==> u.cache.entries == t.cache.entries && e.k in t.cache.entries
    requires e.DidPut? ==> u.cache.entries == t.cache.entries[e.k := (e.at + ttl, e.v)]
    requires !e.DidMiss?
    ensures KeyAgrees(u, ttl, max, x)
  {
    hide LastPut, Since, DroppedAt, Newer, Touch;
    var k := e.k;
    assert KeyAgrees(t, ttl, max, x);
    forall y ensures DroppedAt(u.log, y) == if e.DidPut? && y == k then None else DroppedAt(t.log, y) {
      Logged(t.log, e, y);
    }
    Logged(t.log, e, x);
    if x == k || x in t.cache.entries {
      NewerTouch(t.cache.order, k, x);
    } else {
      Bigger(Since(t.log, x), Since(u.log, x));
    }
  }

  lemma TouchValid<V>(c: Cache<V>, d: Cache<V>, k: string)
    requires Valid(c) && d.order == Touch(c.order, k) && d.entries.Keys == c.entries.Keys + {k}
    ensures Valid(d) && |d.order| == |c.order| + (if k in c.entries then 0 else 1)
  {
    TouchFacts(c.order, k);
  }

  lemma HitKeeps<V>(t: Trace<V>, k: string, now: real, ttl: real, max: nat)
    requires Agrees(t, ttl, max) && k in t.cache.entries && now <= t.cache.entries[k].0
    ensures var (c, r) := Got(t.cache, k, now);
            r.Some? && Agrees(Trace(c, t.log + [DidHit(k, r.value, now)]), ttl, max)
  {
    hide KeyAgrees;
    var (c, r) := Got(t.cache, k, now);
    var e := DidHit(k, r.value, now);
    TouchValid(t.cache, c, k);
    forall x ensures KeyAgrees(Trace(c, t.log + [e]), ttl, max, x) {
      TouchKey(t, Trace(c, t.log + [e]), e, ttl, max, x);
    }
  }

  /** Evicting the oldest key of a cache that is one too large. */
  lemma EvictKey<V>(t: Trace<V>, ttl: real, max: nat, x: string)
    requires Valid(t.cache) && |t.cache.order| == max + 1 && KeyAgrees(t, ttl, max, x)
    ensures var z := t.cache.order[0];
            KeyAgrees(Trace(Cache(t.cache.order[1..], t.cache.entries - {z}), t.log), ttl, max, x)
  {
    hide LastPut, Since, DroppedAt;
    var z := t.cache.order[0];
    if x == z {
      NewerCount(t.cache.order, z);
      Bigger(Newer(t.cache.order, z), Since(t.log, z));
    }
  }

  lemma EvictValid<V>(c: Cache<V>)
    requires Valid(c) && c.order != []
    ensures Valid(Cache(c.order[1..], c.entries - {c.order[0]}))
  {
    assert c.order == [c.order[0]] + c.order[1..];
  }

  lemma PutKeeps<V>(t: Trace<V>, k: string, v: V, now: real, ttl: real, max: nat)
    requires Agrees(t, ttl, max)
    ensures Agrees(Trace(Stored(t.cache, k, v, now, ttl, max), t.log + [DidPut(k, v, now)]), ttl, max)
  {
    hide KeyAgrees, Valid;
    var e := DidPut(k, v, now);
    var c := Cache(Touch(t.cache.order, k), t.cache.entries[k := (now + ttl, v)]);
    var u := Trace(c, t.log + [e]);
    AgreesValid(t, ttl, max);
    TouchValid(t.cache, c, k);
    forall x ensures KeyAgrees(u, ttl, max, x) {
      TouchKey(t, u, e, ttl, max, x);
    }
    if |c.order| > max {
      var d := Cache(c.order[1..], c.entries - {c.order[0]});
      EvictValid(c);
      forall x ensures KeyAgrees(Trace(d, u.log), ttl, max, x) {
        EvictKey(u, ttl, max, x);
      }
      assert Shrunk(c, max) == Shrunk(d, max) == d;
    }
  }

  lemma AgreesValid<V>(t: Trace<V>, ttl: real, max: nat)
    requires Agrees(t, ttl, max)
    ensures Valid(t.cache) && |t.cache.order| <= max
  {}

  lemma StepKeeps<V>(t: Trace<V>, op: Op<V>, ttl: real, max: nat)
    requires Agrees(t, ttl, max)
    ensures Agrees(Trace(Next(t.cache, op, ttl, max), t.log + [Did(t.cache, op)]), ttl, max)
  {
    hide Agrees;
    match op {
      case Put(k, v, now) => PutKeeps(t, k, v, now, ttl, max);
      case Get(k, now) =>
        if k !in t.cache.entries {
          MissKeeps(t, k, now, ttl, max);
        } else if now > t.cache.entries[k].0 {
          ExpireKeeps(t, k, now, ttl, max);
        } else {
          HitKeeps(t, k, now, ttl, max);
        }
    }
  }

  lemma {:induction false} RunAgrees<V>(ops: seq<Op<V>>, ttl: real, max: nat)
    ensures Agrees(Run(ops, ttl, max), ttl, max)
  {
    hide Agrees, Next, Did;
    if ops == [] {
      FreshAgrees<V>(ttl, max);
    } else {
      var n := |ops| - 1;
      RunAgrees(ops[..n], ttl, max);
      StepKeeps(Run(ops[..n], ttl, max), ops[n], ttl, max);
    }
  }

  lemma FreshAgrees<V>(ttl: real, max: nat)
    ensures Agrees<V>(Trace(Cache([], map[]), []), ttl, max)
  {}

  // ---------------------------------------------------------------- theorems

  /** A hit returns the value of the latest put of that key, made at most `ttl`
      ago; and the cache never holds more than `max` entries. */
  lemma HitIsLastPut<V>(ops: seq<Op<V>>, ttl: real, max: nat, k: string, now: real)
    ensures var t := Run(ops, ttl, max);
            var r := Got(t.cache, k, now).1;
            && |t.cache.order| <= max && t.cache.entries.Keys == (set x | x in t.cache.order)
            && (r.Some? ==>
                  && LastPut(t.log, k).Some? && LastPut(t.log, k).value.0 == r.value
                  && now <= LastPut(t.log, k).value.1 + ttl)
  {
    RunAgrees(ops, ttl, max);
    var t := Run(ops, ttl, max);
    assert KeyAgrees(t, ttl, max, k);
  }

  /** Time does not run backwards over the operations. */
  predicate Timely<V>(ops: seq<Op<V>>, now: real) {
    ops == [] || (ops[|ops| - 1].now <= now && Timely(ops[..|ops| - 1], ops[|ops| - 1].now))
  }

  lemma {:induction false} DropsArePast<V>(ops: seq<Op<V>>, ttl: real, max: nat, now: real, k: string)
    requires Timely(ops, now)
    ensures var d := DroppedAt(Run(ops, ttl, max).log, k); d.Some? ==> d.value <= now
  {
    hide Next;
    if ops != [] {
      var n := |ops| - 1;
      DropsArePast(ops[..n], ttl, max, ops[n].now, k);
      Logged(Run(ops[..n], ttl, max).log, Did(Run(ops[..n], ttl, max).cache, ops[n]), k);
    }
  }

  /** An unexpired key is still there, with its latest value, whenever fewer than
      `max` distinct other keys were put or hit since it was last touched. */
  lemma RecentIsKept<V>(ops: seq<Op<V>>, ttl: real, max: nat, k: string, now: real)
    requires Timely(ops, now)
    requires var log := Run(ops, ttl, max).log;
             LastPut(log, k).Some? && now <= LastPut(log, k).value.1 + ttl && |Since(log, k)| < max
    ensures var t := Run(ops, ttl, max);
            Got(t.cache, k, now).1 == Some(LastPut(t.log, k).value.0)
  {
    RunAgrees(ops, ttl, max);
    DropsArePast(ops, ttl, max, now, k);
    assert KeyAgrees(Run(ops, ttl, max), ttl, max, k);
  }

  /** In a history in which nothing was dropped as expired, that is exact: a key
      that was put is present if and only if fewer than `max` distinct other keys
      were touched since. */
  lemma PresenceIsExact<V>(ops: seq<Op<V>>, ttl: real, max: nat, k: string)
    requires forall x :: DroppedAt(Run(ops, ttl, max).log, x).None?
    requires LastPut(Run(ops, ttl, max).log, k).Some?
    ensures var t := Run(ops, ttl, max);
            k in t.cache.entries <==> |Since(t.log, k)| < max
  {
    hide LastPut, Since, Run;
    RunAgrees(ops, ttl, max);
    var t := Run(ops, ttl, max);
    assert KeyAgrees(t, ttl, max, k);
    if k in t.cache.entries {
      NewerCount(t.cache.order, k);
      assert Since(t.log, k) <= Newer(t.cache.order, k);
      Bigger(Since(t.log, k), Newer(t.cache.order, k));
    }
  }
}
