/** Sums and products over the values of a finite map, in no particular
    order, as Python's `sum(d.values())` and a product loop over
    `d.iteritems()` compute them. */
module Sums {

  /** Some key of a non-empty map: the order in which the values are
      visited is left open, and the lemmas below show it does not matter. */
  ghost function Pick<K>(m: map<K, real>): (k: K)
    requires m != map[]
    ensures k in m
  {
    var k :| k in m; k
  }

  /** The sum of all values of `m`; 0 for the empty map. */
  ghost function Sum<K>(m: map<K, real>): real
    decreases |m|
  {
    if m == map[] then 0.0
    else
      var k := Pick(m);
      m[k] + Sum(m - {k})
  }

  /** The product of all values of `m`; 1 for the empty map. */
  ghost function Prod<K>(m: map<K, real>): real
    decreases |m|
  {
    if m == map[] then 1.0
    else
      var k := Pick(m);
      m[k] * Prod(m - {k})
  }

  /** The value at `k`, or 0 when `k` is absent (a `defaultdict(float)` read). */
  function Get<K>(m: map<K, real>, k: K): (r: real)
    ensures k !in m ==> r == 0.0
    ensures k in m ==> r == m[k]
  {
    if k in m then m[k] else 0.0
  }

  /** `m` with `v` added at `x`, creating the entry at 0 when absent:
      `res[x] += v` on a `defaultdict(float)`. */
  function Bump<K>(m: map<K, real>, x: K, v: real): map<K, real>
  {
    m[x := Get(m, x) + v]
  }

  lemma RemoveCommutes<K>(m: map<K, real>, j: K, k: K)
    ensures m - {j} - {k} == m - {k} - {j}
  {
  }

  lemma RemoveFresh<K>(m: map<K, real>, k: K, v: real)
    requires k !in m
    ensures m[k := v] - {k} == m
  {
  }

  lemma RemoveUpdated<K>(m: map<K, real>, k: K, v: real)
    ensures m[k := v] - {k} == m - {k}
  {
  }

  lemma RemoveOneLess<K>(m: map<K, real>, k: K)
    requires k in m
    ensures |m - {k}| == |m| - 1
  {
  }

  /** Any key can be taken out first: the sum does not depend on the order. */
  lemma {:induction false} SumRemove<K>(m: map<K, real>, k: K)
    requires k in m
    ensures Sum(m) == m[k] + Sum(m - {k})
    decreases |m|
  {
    var j := Pick(m);
    if j != k {
      RemoveCommutes(m, j, k);
      SumRemove(m - {j}, k);
      SumRemove(m - {k}, j);
    }
  }

  /** Adding a fresh key adds its value to the sum. */
  lemma SumAdd<K>(m: map<K, real>, k: K, v: real)
    requires k !in m
    ensures Sum(m[k := v]) == Sum(m) + v
  {
    SumRemove(m[k := v], k);
    RemoveFresh(m, k, v);
  }

  /** Adding `v` at one key adds `v` to the sum. */
  lemma SumBump<K>(m: map<K, real>, x: K, v: real)
    ensures Sum(Bump(m, x, v)) == Sum(m) + v
  {
    if x in m {
      SumRemove(m[x := m[x] + v], x);
      SumRemove(m, x);
      RemoveUpdated(m, x, m[x] + v);
    } else {
      SumAdd(m, x, v);
    }
  }

  /** `sum(d.values())`, accumulated key by key. */
  method TotalWeight<K>(m: map<K, real>) returns (s: real)
    ensures s == Sum(m)
  {
    s := 0.0;
    var rest := m.Keys;
    while rest != {}
      invariant rest <= m.Keys
      invariant s == Sum(m - rest)
      decreases rest
    {
      var k :| k in rest;
      assert m - (rest - {k}) == (m - rest)[k := m[k]];
      SumAdd(m - rest, k, m[k]);
      s := s + m[k];
      rest := rest - {k};
    }
    assert m - rest == m;
  }

  /** The map that divides every value of `m` by `d`. */
  function Divided<K>(m: map<K, real>, d: real): (r: map<K, real>)
    requires d != 0.0
  {
    map k | k in m :: m[k] / d
  }

  lemma DividedRemove<K>(m: map<K, real>, d: real, k: K)
    requires d != 0.0
    ensures Divided(m, d) - {k} == Divided(m - {k}, d)
  {
  }

  lemma DividedAt<K>(m: map<K, real>, d: real, k: K)
    requires d != 0.0 && k in m
    ensures Divided(m, d)[k] == m[k] / d
  {
  }

  lemma DivideAdd(x: real, y: real, d: real)
    requires d != 0.0
    ensures (x + y) / d == x / d + y / d
  {
  }

  /** Dividing every value by a common divisor divides the sum. */
  lemma DivideStep(total: real, head: real, tail: real, dtotal: real, dhead: real, dtail: real, d: real)
    requires d != 0.0
    requires total == head + tail && dtotal == dhead + dtail
    requires dhead == head / d && dtail == tail / d
    ensures dtotal == total / d
  {
    DivideAdd(head, tail, d);
  }

  lemma {:induction false} SumDivided<K>(m: map<K, real>, d: real)
    requires d != 0.0
    ensures Sum(Divided(m, d)) == Sum(m) / d
    decreases |m|
  {
    if m != map[] {
      var k := Pick(m);
      SumRemove(m, k);
      SumRemove(Divided(m, d), k);
      DividedRemove(m, d, k);
      DividedAt(m, d, k);
      SumDivided(m - {k}, d);
      DivideStep(Sum(m), m[k], Sum(m - {k}), Sum(Divided(m, d)), Divided(m, d)[k], Sum(Divided(m - {k}, d)), d);
    } else {
      assert Divided(m, d) == map[];
    }
  }

  /** The map that adds `c` to every value of `m`. */
  function Shifted<K>(m: map<K, real>, c: real): map<K, real>
  {
    map k | k in m :: m[k] + c
  }

  /** The map that sends every key of `m` to `c`. */
  function Constant<K>(m: map<K, real>, c: real): map<K, real>
  {
    map k | k in m :: c
  }

  lemma ShiftedRemove<K>(m: map<K, real>, c: real, k: K)
    ensures Shifted(m, c) - {k} == Shifted(m - {k}, c)
    ensures Constant(m, c) - {k} == Constant(m - {k}, c)
  {
  }

  /** Adding `c` to every value adds the sum of a constant map. */
  lemma {:induction false} SumShifted<K>(m: map<K, real>, c: real)
    ensures Sum(Shifted(m, c)) == Sum(m) + Sum(Constant(m, c))
    decreases |m|
  {
    if m != map[] {
      var k := Pick(m);
      SumRemove(m, k);
      SumRemove(Shifted(m, c), k);
      SumRemove(Constant(m, c), k);
      ShiftedRemove(m, c, k);
      SumShifted(m - {k}, c);
    } else {
      assert Shifted(m, c) == map[] && Constant(m, c) == map[];
    }
  }

  /** Adding `c` to every value adds `c` once per key. */
  lemma SumShiftedConstant<K>(m: map<K, real>, c: real)
    ensures Sum(Shifted(m, c)) == Sum(m) + c * (|m| as real)
  {
    SumShifted(m, c);
    var k := Constant(m, c);
    assert |k| == |m| by { assert k.Keys == m.Keys; }
    SumConstant(k, c);
  }

  lemma ConstantStep(total: real, tail: real, c: real, n: real, r: real)
    requires total == c + tail && tail == c * r && r == n - 1.0
    ensures total == c * n
  {
  }

  /** Every value equal to `c` gives `c` times the number of keys. */
  lemma {:induction false} SumConstant<K>(m: map<K, real>, c: real)
    requires forall k | k in m :: m[k] == c
    ensures Sum(m) == c * (|m| as real)
    decreases |m|
  {
    if m != map[] {
      var k := Pick(m);
      var rest := m - {k};
      SumRemove(m, k);
      SumConstant(rest, c);
      RemoveOneLess(m, k);
      ConstantStep(Sum(m), Sum(rest), c, |m| as real, |rest| as real);
    }
  }

  /** Non-negative values have a non-negative sum. */
  lemma {:induction false} SumNonNegative<K>(m: map<K, real>)
    requires forall k | k in m :: m[k] >= 0.0
    ensures Sum(m) >= 0.0
    decreases |m|
  {
    if m != map[] {
      var k := Pick(m);
      SumRemove(m, k);
      SumNonNegative(m - {k});
    }
  }

  /** A non-empty sum of positive values is positive. */
  lemma SumPositive<K>(m: map<K, real>)
    requires m != map[]
    requires forall k | k in m :: m[k] > 0.0
    ensures Sum(m) > 0.0
  {
    var k := Pick(m);
    SumRemove(m, k);
    SumNonNegative(m - {k});
  }

  /** A non-negative value is at most the sum of the non-negative values. */
  lemma SumAtLeast<K>(m: map<K, real>, k: K)
    requires k in m
    requires forall j | j in m :: m[j] >= 0.0
    ensures m[k] <= Sum(m)
  {
    SumRemove(m, k);
    SumNonNegative(m - {k});
  }

  lemma ProdSwap(x: real, y: real, p: real)
    ensures x * (y * p) == y * (x * p)
  {
  }

  /** Any key can be taken out of a product first. */
  lemma {:induction false} ProdRemove<K>(m: map<K, real>, k: K)
    requires k in m
    ensures Prod(m) == m[k] * Prod(m - {k})
    decreases |m|
  {
    var j := Pick(m);
    if j != k {
      var p := Prod(m - {j} - {k});
      RemoveCommutes(m, j, k);
      ProdRemove(m - {j}, k);
      ProdRemove(m - {k}, j);
      assert Prod(m - {k}) == m[j] * p;
      ProdSwap(m[j], m[k], p);
    }
  }

  lemma ProdCommutes(p: real, v: real)
    ensures v * p == p * v
  {
  }

  /** Adding a fresh key multiplies the product by its value. */
  lemma ProdAdd<K>(m: map<K, real>, k: K, v: real)
    requires k !in m
    ensures Prod(m[k := v]) == Prod(m) * v
  {
    ProdRemove(m[k := v], k);
    RemoveFresh(m, k, v);
    ProdCommutes(Prod(m), v);
  }

  lemma PositiveProduct(x: real, y: real)
    requires x > 0.0 && y > 0.0
    ensures x * y > 0.0
  {
  }

  /** A product of positive factors is positive. */
  lemma {:induction false} ProdPositive<K>(m: map<K, real>)
    requires forall k | k in m :: m[k] > 0.0
    ensures Prod(m) > 0.0
    decreases |m|
  {
    if m != map[] {
      var k := Pick(m);
      ProdRemove(m, k);
      ProdPositive(m - {k});
      PositiveProduct(m[k], Prod(m - {k}));
    }
  }

  // ---------------------------------------------------------------------
  // Facts about one division, shared by the modules that divide weights
  // ---------------------------------------------------------------------

  lemma DivideSelf(d: real)
    requires d != 0.0
    ensures d / d == 1.0
  {
  }

  lemma NonNegativeRatio(x: real, d: real)
    requires x >= 0.0 && d > 0.0
    ensures x / d >= 0.0
  {
  }

  lemma PositiveRatio(x: real, d: real)
    requires x > 0.0 && d > 0.0
    ensures x / d > 0.0
  {
  }

  /** A denominator `n * vc + m` of non-negative parts is positive when
      one of its two terms is. */
  lemma PositiveDenominator(n: real, vc: real, m: real)
    requires n >= 0.0 && vc >= 0.0 && m >= 0.0
    requires (n >= 1.0 && vc > 0.0) || m >= 1.0
    ensures n * vc + m > 0.0
  {
  }
}
