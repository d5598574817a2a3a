/** Sums of counters: the Python `Counter` values that the analyses add up
    (`sum(counter.values())`, running totals over nested dictionaries).
    A counter is a finite map to natural numbers; the order in which a
    dictionary is traversed never changes its sum. */
module Counting {

  /** A Python `Counter` of words as a finite map; a missing key reads as 0. */
  type Counter<K> = map<K, nat>

  /** `counter[key]` on a Python `Counter`: missing keys count 0. */
  function Get<K>(c: Counter<K>, k: K): (r: nat)
    ensures k in c ==> r == c[k]
    ensures k !in c ==> r == 0
    ensures Positive(c) ==> (r > 0 <==> k in c)
  {
    if k in c then c[k] else 0
  }

  /** Sum of the counts of `keys`, taken in an arbitrary order. */
  ghost function SumOn<K>(c: Counter<K>, keys: set<K>): nat
    requires keys <= c.Keys
    decreases keys
  {
    if keys == {} then 0
    else
      var k :| k in keys;
      c[k] + SumOn(c, keys - {k})
  }

  /** `sum(c.values())`. */
  ghost function SumValues<K>(c: Counter<K>): nat
  {
    SumOn(c, c.Keys)
  }

  /** The sum of each counter of a dictionary of counters. */
  ghost function Sums<K, L>(m: map<K, Counter<L>>): Counter<K>
  {
    map k | k in m :: SumValues(m[k])
  }

  /** The sum of all counts of a dictionary of counters. */
  ghost function NestedTotal<K, L>(m: map<K, Counter<L>>): nat
  {
    SumValues(Sums(m))
  }

  /** Any key may be taken out first: the sum does not depend on traversal order. */
  lemma {:induction false} SumOnRemove<K>(c: Counter<K>, keys: set<K>, k: K)
    requires keys <= c.Keys && k in keys
    ensures SumOn(c, keys) == c[k] + SumOn(c, keys - {k})
    decreases keys
  {
    var y :| y in keys && SumOn(c, keys) == c[y] + SumOn(c, keys - {y});
    if y != k {
      SumOnRemove(c, keys - {y}, k);
      SumOnRemove(c, keys - {k}, y);
      assert keys - {y} - {k} == keys - {k} - {y};
    }
  }

  /** Only the counts of the summed keys matter. */
  lemma {:induction false} SumOnAgree<K>(c: Counter<K>, d: Counter<K>, keys: set<K>)
    requires keys <= c.Keys && keys <= d.Keys
    requires forall k :: k in keys ==> c[k] == d[k]
    ensures SumOn(c, keys) == SumOn(d, keys)
    decreases keys
  {
    if keys != {} {
      var k :| k in keys && SumOn(c, keys) == c[k] + SumOn(c, keys - {k});
      SumOnRemove(d, keys, k);
      SumOnAgree(c, d, keys - {k});
    }
  }

  /** Adding a key to the summed set adds its count. */
  lemma SumOnAdd<K>(c: Counter<K>, keys: set<K>, k: K)
    requires keys <= c.Keys && k in c && k !in keys
    ensures SumOn(c, keys + {k}) == SumOn(c, keys) + c[k]
  {
    SumOnRemove(c, keys + {k}, k);
    assert keys + {k} - {k} == keys;
  }

  /** Storing `v` under `k` replaces `Get(c, k)` by `v` in the sum. */
  lemma SumValuesUpdate<K>(c: Counter<K>, k: K, v: nat)
    ensures SumValues(c[k := v]) == SumValues(c) - Get(c, k) + v
  {
    var d := c[k := v];
    var rest := c.Keys - {k};
    SumOnAgree(c, d, rest);
    SumOnRemove(d, d.Keys, k);
    assert d.Keys - {k} == rest;
    if k in c {
      SumOnRemove(c, c.Keys, k);
    } else {
      assert c.Keys == rest;
    }
  }

  /** Storing counter `d` under `k` replaces the sum of the counter that was
      there (none counts 0) by the sum of `d` in the nested total. */
  lemma NestedTotalUpdate<K, L>(m: map<K, Counter<L>>, k: K, d: Counter<L>)
    ensures NestedTotal(m[k := d]) == NestedTotal(m) - (if k in m then SumValues(m[k]) else 0) + SumValues(d)
  {
    assert Sums(m[k := d]) == Sums(m)[k := SumValues(d)];
    SumValuesUpdate(Sums(m), k, SumValues(d));
  }

  /** Every single count is bounded by the sum. */
  lemma SumValuesBounds<K>(c: Counter<K>, k: K)
    ensures Get(c, k) <= SumValues(c)
  {
    if k in c {
      SumOnRemove(c, c.Keys, k);
    }
  }

  /** A zero sum means every count is zero. */
  lemma SumValuesZero<K>(c: Counter<K>)
    requires SumValues(c) == 0
    ensures forall k :: Get(c, k) == 0
  {
    forall k ensures Get(c, k) == 0 {
      SumValuesBounds(c, k);
    }
  }

  /** `sum(counter.values())`, computed by walking the keys. */
  method Total<K>(c: Counter<K>) returns (total: nat)
    ensures total == SumValues(c)
  {
    total := 0;
    var todo := c.Keys;
    while todo != {}
      invariant todo <= c.Keys
      invariant total == SumOn(c, c.Keys - todo)
      decreases todo
    {
      var k :| k in todo;
      SumOnAdd(c, c.Keys - todo, k);
      assert c.Keys - todo + {k} == c.Keys - (todo - {k});
      total := total + c[k];
      todo := todo - {k};
    }
    assert c.Keys - todo == c.Keys;
  }

  /** What a `Counter` built by counting or by `+=` holds: only positive counts. */
  predicate Positive<K>(c: Counter<K>)
  {
    forall k :: k in c ==> c[k] > 0
  }

  /** `a += b` on Counters: counts are added and non-positive results dropped. */
  function Plus<K(!new)>(a: Counter<K>, b: Counter<K>): (r: Counter<K>)
    ensures Positive(r)
    ensures forall k :: Get(r, k) == Get(a, k) + Get(b, k)
  {
    map k | k in a.Keys + b.Keys && Get(a, k) + Get(b, k) > 0 :: Get(a, k) + Get(b, k)
  }

  /** A positive counter is determined by its counts. */
  lemma PositiveUnique<K>(c: Counter<K>, d: Counter<K>)
    requires Positive(c) && Positive(d)
    requires forall k :: Get(c, k) == Get(d, k)
    ensures c == d
  {
    assert forall k :: k in c <==> Get(c, k) > 0;
    assert forall k :: k in d <==> Get(d, k) > 0;
    assert c.Keys == d.Keys;
  }

  /** A positive counter sums to 0 exactly when it is empty. */
  lemma PositiveSumZero<K>(c: Counter<K>)
    requires Positive(c)
    ensures SumValues(c) == 0 <==> c == map[]
  {
    if SumValues(c) == 0 {
      SumValuesZero(c);
      assert forall k :: k !in c;
    }
  }

  /** Sum of the values of `keys` in a dictionary of exact reals, taken in
      an arbitrary order. */
  ghost function RealSumOn<K>(d: map<K, real>, keys: set<K>): real
    requires keys <= d.Keys
    decreases keys
  {
    if keys == {} then 0.0
    else
      var k :| k in keys;
      d[k] + RealSumOn(d, keys - {k})
  }

  /** `sum(d.values())` for real values. */
  ghost function RealSum<K>(d: map<K, real>): real
  {
    RealSumOn(d, d.Keys)
  }

  /** As for counters, any key may be taken out first. */
  lemma {:induction false} RealSumOnRemove<K>(d: map<K, real>, keys: set<K>, k: K)
    requires keys <= d.Keys && k in keys
    ensures RealSumOn(d, keys) == d[k] + RealSumOn(d, keys - {k})
    decreases keys
  {
    var y :| y in keys && RealSumOn(d, keys) == d[y] + RealSumOn(d, keys - {y});
    if y != k {
      RealSumOnRemove(d, keys - {y}, k);
      RealSumOnRemove(d, keys - {k}, y);
      assert keys - {y} - {k} == keys - {k} - {y};
    }
  }

  /** Dividing every count by `t` divides the sum by `t`. */
  lemma {:induction false} ScaledSum<K>(c: Counter<K>, d: map<K, real>, t: real, keys: set<K>)
    requires t > 0.0 && keys <= c.Keys && keys <= d.Keys
    requires forall k :: k in keys ==> d[k] == c[k] as real / t
    ensures RealSumOn(d, keys) == SumOn(c, keys) as real / t
    decreases keys
  {
    if keys != {} {
      var k :| k in keys;
      SumOnRemove(c, keys, k);
      RealSumOnRemove(d, keys, k);
      ScaledSum(c, d, t, keys - {k});
      DivAdd(c[k] as real, SumOn(c, keys - {k}) as real, t);
    }
  }

  /** A positive total divided by itself is one. */
  lemma DivSelf(t: real)
    requires t > 0.0
    ensures t / t == 1.0
  {
  }

  /** Division by a common positive total distributes over addition, the
      step that lets `RealSum` of the fractions equal the fraction of the sum. */
  lemma DivAdd(x: real, y: real, t: real)
    requires t > 0.0
    ensures x / t + y / t == (x + y) / t
  {
  }
}
