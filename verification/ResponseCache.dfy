/** The LRU + TTL response cache of `coalesce.py`: an ordered dictionary with the
    least recently touched key first. */
module ResponseCache {
  import opened Prelude

  /** Keys from least to most recently touched, and their entries: expiry time
      and response. */
  datatype Cache<+V> = Cache(order: seq<string>, entries: map<string, (real, V)>)

  ghost predicate Valid<V>(c: Cache<V>) {
    Distinct(c.order) && forall k :: k in c.order <==> k in c.entries
  }

  function Without(order: seq<string>, k: string): seq<string> {
    if order == [] then []
    else if order[0] == k then order[1..]
    else [order[0]] + Without(order[1..], k)
  }

  /** `move_to_end`, or insertion at the end. */
  function Touch(order: seq<string>, k: string): seq<string> {
    Without(order, k) + [k]
  }

  /** `get` */
  function Got<V>(c: Cache<V>, k: string, now: real): (Cache<V>, Option<V>) {
    if k !in c.entries then (c, None)
    else if now > c.entries[k].0 then (Cache(Without(c.order, k), c.entries - {k}), None)
    else (c.(order := Touch(c.order, k)), Some(c.entries[k].1))
  }

  /** `popitem(last=False)` until the size fits. */
  function Shrunk<V>(c: Cache<V>, max: nat): Cache<V>
    decreases |c.order|
  {
    if |c.order| <= max then c else Shrunk(Cache(c.order[1..], c.entries - {c.order[0]}), max)
  }

  /** `put` */
  function Stored<V>(c: Cache<V>, k: string, v: V, now: real, ttl: real, max: nat): Cache<V> {
    Shrunk(Cache(Touch(c.order, k), c.entries[k := (now + ttl, v)]), max)
  }

  lemma {:induction false} NothingToRemove(order: seq<string>, k: string)
    requires k !in order
    ensures Without(order, k) == order
  {
    if order != [] {
      NothingToRemove(order[1..], k);
    }
  }

  class DeterministicCache<V(==)> {
    const max: nat
    const ttl: real
    var order: seq<string>
    var entries: map<string, (real, V)>
    var hits: nat
    var misses: nat

    ghost function View(): Cache<V> reads this { Cache(order, entries) }

    constructor (max: nat, ttl: real)
      ensures this.max == max && this.ttl == ttl && View() == Cache([], map[]) && hits == misses == 0
    {
      this.max, this.ttl := max, ttl;
      order, entries, hits, misses := [], map[], 0, 0;
    }

    method Get(k: string, now: real) returns (r: Option<V>)
      modifies this
      ensures (View(), r) == Got(old(View()), k, now)
      ensures hits == old(hits) + (if r.Some? then 1 else 0)
      ensures misses == old(misses) + (if r.Some? then 0 else 1)
    {
      if k !in entries {
        misses := misses + 1;
        return None;
      }
      var (expires, response) := entries[k];
      if now > expires {
        order, entries := Without(order, k), entries - {k};
        misses := misses + 1;
        return None;
      }
      order := Touch(order, k);
      hits := hits + 1;
      r := Some(response);
    }

    method Put(k: string, v: V, now: real)
      requires Valid(View())
      modifies this
      ensures View() == Stored(old(View()), k, v, now, ttl, max)
      ensures hits == old(hits) && misses == old(misses)
    {
      if k in entries {
        order := Touch(order, k);
      } else {
        NothingToRemove(order, k);
        order := order + [k];
      }
      entries := entries[k := (now + ttl, v)];
      while |order| > max
        invariant Shrunk(View(), max) == Stored(old(View()), k, v, now, ttl, max)
        invariant hits == old(hits) && misses == old(misses)
      {
        order, entries := order[1..], entries - {order[0]};
      }
    }
  }
}
