/** Probability tables and the operations of hw4_p1.py on them:
    marginalization, normalization and conditioning.  A table,
    `map<seq<V>, real>`, maps an assignment tuple to its weight; weights
    are exact reals. */
module Tables {
  import opened Results
  import opened Sums

  /** `k[:i] + k[i+1:]`: the tuple without position `i`.  Python slicing
      past the end is not an error, so an `i` beyond the tuple leaves it
      unchanged. */
  function Drop<V>(k: seq<V>, i: nat): (r: seq<V>)
    ensures i < |k| ==> |r| == |k| - 1
    ensures i >= |k| ==> r == k
  {
    if i < |k| then k[..i] + k[i + 1..] else k
  }

  /** `Drop` at a fixed position, as a key transformation. */
  function DropAt<V>(i: nat): seq<V> -> seq<V>
  {
    k => Drop(k, i)
  }

  // ---------------------------------------------------------------------
  // Grouping: every key is sent to a new key, and the weights of the keys
  // sent to the same new key are added up.  Marginalization is grouping
  // by `Drop`.
  // ---------------------------------------------------------------------

  /** The table built by adding, for every entry `k: v` of `t`, the weight
      `v` at `f(k)`, in no particular order. */
  ghost function GroupBy<V>(t: map<seq<V>, real>, f: seq<V> -> seq<V>): map<seq<V>, real>
    decreases |t|
  {
    if t == map[] then map[]
    else
      var k := Pick(t);
      Bump(GroupBy(t - {k}, f), f(k), t[k])
  }

  /** The distribution of `t` with position `i` summed out. */
  ghost function Marginal<V>(t: map<seq<V>, real>, i: nat): map<seq<V>, real>
  {
    GroupBy(t, DropAt(i))
  }

  /** The new keys: every key of `t` transformed by `f`. */
  ghost function Image<V>(t: map<seq<V>, real>, f: seq<V> -> seq<V>): set<seq<V>>
  {
    set k | k in t :: f(k)
  }

  /** The entries of `t` whose key `f` sends to `nk`. */
  ghost function Preimage<V>(t: map<seq<V>, real>, f: seq<V> -> seq<V>, nk: seq<V>): map<seq<V>, real>
  {
    map k | k in t && f(k) == nk :: t[k]
  }

  lemma BumpCommutes<K>(m: map<K, real>, x: K, v: real, y: K, w: real)
    ensures Bump(Bump(m, x, v), y, w) == Bump(Bump(m, y, w), x, v)
  {
  }

  lemma BumpTwice<K>(m: map<K, real>, x: K, v: real, w: real)
    ensures Bump(Bump(m, x, v), x, w) == Bump(m, x, v + w)
  {
  }

  /** Any entry can be added last: the grouping does not depend on the
      order in which the entries are visited. */
  lemma {:induction false} GroupByRemove<V>(t: map<seq<V>, real>, f: seq<V> -> seq<V>, k: seq<V>)
    requires k in t
    ensures GroupBy(t, f) == Bump(GroupBy(t - {k}, f), f(k), t[k])
    decreases |t|
  {
    var j := Pick(t);
    if j != k {
      var t2 := t - {j} - {k};
      RemoveCommutes(t, j, k);
      GroupByRemove(t - {j}, f, k);
      GroupByRemove(t - {k}, f, j);
      BumpCommutes(GroupBy(t2, f), f(k), t[k], f(j), t[j]);
    }
  }

  /** Adding `v` to the weight of one key adds `v` to the weight of the
      new key it is sent to. */
  lemma GroupByUpdate<V>(m: map<seq<V>, real>, f: seq<V> -> seq<V>, x: seq<V>, v: real)
    ensures GroupBy(Bump(m, x, v), f) == Bump(GroupBy(m, f), f(x), v)
  {
    var m' := Bump(m, x, v);
    GroupByRemove(m', f, x);
    assert m' - {x} == m - {x};
    if x in m {
      GroupByRemove(m, f, x);
      BumpTwice(GroupBy(m - {x}, f), f(x), m[x], v);
    } else {
      assert m - {x} == m;
    }
  }

  /** Grouping preserves the total weight. */
  lemma {:induction false} GroupBySum<V>(t: map<seq<V>, real>, f: seq<V> -> seq<V>)
    ensures Sum(GroupBy(t, f)) == Sum(t)
    decreases |t|
  {
    if t != map[] {
      var k := Pick(t);
      GroupBySum(t - {k}, f);
      SumBump(GroupBy(t - {k}, f), f(k), t[k]);
      SumRemove(t, k);
    }
  }

  /** The new keys are exactly the transformed old keys. */
  lemma {:induction false} GroupByKeys<V>(t: map<seq<V>, real>, f: seq<V> -> seq<V>)
    ensures GroupBy(t, f).Keys == Image(t, f)
    decreases |t|
  {
    if t != map[] {
      var k := Pick(t);
      GroupByKeys(t - {k}, f);
      assert Image(t, f) == Image(t - {k}, f) + {f(k)};
    } else {
      assert Image(t, f) == {};
    }
  }

  lemma PreimageRemove<V>(t: map<seq<V>, real>, f: seq<V> -> seq<V>, k: seq<V>, nk: seq<V>)
    requires k in t
    ensures f(k) == nk ==> Preimage(t, f, nk) == Preimage(t - {k}, f, nk)[k := t[k]]
    ensures f(k) != nk ==> Preimage(t, f, nk) == Preimage(t - {k}, f, nk)
  {
  }

  /** Each new key weighs the total weight of the old keys sent to it. */
  lemma {:induction false} GroupByAt<V>(t: map<seq<V>, real>, f: seq<V> -> seq<V>, nk: seq<V>)
    ensures Get(GroupBy(t, f), nk) == Sum(Preimage(t, f, nk))
    decreases |t|
  {
    if t != map[] {
      var k := Pick(t);
      GroupByAt(t - {k}, f, nk);
      PreimageRemove(t, f, k, nk);
      if f(k) == nk {
        SumAdd(Preimage(t - {k}, f, nk), k, t[k]);
      }
    } else {
      assert Preimage(t, f, nk) == map[];
    }
  }

  /** `x => g(f(x))`. */
  function Compose<V>(f: seq<V> -> seq<V>, g: seq<V> -> seq<V>): seq<V> -> seq<V>
  {
    x => g(f(x))
  }

  /** Grouping twice is grouping once by the composed transformation. */
  lemma {:induction false} GroupByCompose<V>(t: map<seq<V>, real>, f: seq<V> -> seq<V>, g: seq<V> -> seq<V>)
    ensures GroupBy(GroupBy(t, f), g) == GroupBy(t, Compose(f, g))
    decreases |t|
  {
    if t != map[] {
      var k := Pick(t);
      GroupByCompose(t - {k}, f, g);
      GroupByUpdate(GroupBy(t - {k}, f), g, f(k), t[k]);
      assert Compose(f, g)(k) == g(f(k));
    }
  }

  /** Only the values of the transformation on the keys of `t` matter. */
  lemma {:induction false} GroupByExtensional<V>(t: map<seq<V>, real>, f: seq<V> -> seq<V>, g: seq<V> -> seq<V>)
    requires forall k | k in t :: f(k) == g(k)
    ensures GroupBy(t, f) == GroupBy(t, g)
    decreases |t|
  {
    if t != map[] {
      var k := Pick(t);
      GroupByExtensional(t - {k}, f, g);
    }
  }

  // ---------------------------------------------------------------------
  // marginalize (hw4_p1.py:4-15)
  // ---------------------------------------------------------------------

  /** Sums out position `index`: every key loses that position and keys
      that become equal have their weights added up. */
  method Marginalize<V(==)>(t: map<seq<V>, real>, index: nat) returns (r: map<seq<V>, real>)
    ensures r == Marginal(t, index)
    ensures r.Keys == set k | k in t :: Drop(k, index)
    ensures forall nk | nk in r :: r[nk] == Sum(Preimage(t, DropAt(index), nk))
    ensures Sum(r) == Sum(t)
  {
    r := map[];
    var rest := t.Keys;
    while rest != {}
      invariant rest <= t.Keys
      invariant r == GroupBy(t - rest, DropAt(index))
      decreases rest
    {
      var k :| k in rest;
      var newk := Drop(k, index);
      GroupByRemove(t - (rest - {k}), DropAt(index), k);
      assert t - (rest - {k}) - {k} == t - rest;
      r := Bump(r, newk, t[k]);
      rest := rest - {k};
    }
    assert t - rest == t;
    GroupBySum(t, DropAt(index));
    GroupByKeys(t, DropAt(index));
    assert Image(t, DropAt(index)) == set k | k in t :: Drop(k, index);
    forall nk | nk in r
      ensures r[nk] == Sum(Preimage(t, DropAt(index), nk))
    {
      GroupByAt(t, DropAt(index), nk);
    }
  }

  // ---------------------------------------------------------------------
  // marginalize_multiple (hw4_p1.py:17-22)
  // ---------------------------------------------------------------------

  /** The entries of `k` at the positions not in `s`, in order. */
  function Keep<V>(k: seq<V>, s: set<nat>): seq<V>
    decreases |k|
  {
    if k == [] then []
    else if |k| - 1 in s then Keep(k[..|k| - 1], s)
    else Keep(k[..|k| - 1], s) + [k[|k| - 1]]
  }

  /** `Keep` with a fixed set of removed positions, as a key transformation. */
  function KeepAt<V>(s: set<nat>): seq<V> -> seq<V>
  {
    k => Keep(k, s)
  }

  /** The set of entries of `xs`. */
  ghost function Elements(xs: seq<nat>): set<nat>
  {
    set j | j in xs
  }

  /** No two entries of `xs` are equal. */
  ghost predicate Distinct(xs: seq<nat>)
  {
    forall a, b | 0 <= a < b < |xs| :: xs[a] != xs[b]
  }

  /** Removing only positions at or past the end changes nothing. */
  lemma {:induction false} KeepAll<V>(k: seq<V>, s: set<nat>)
    requires forall j | j in s :: j >= |k|
    ensures Keep(k, s) == k
    decreases |k|
  {
    if k != [] {
      var n := |k| - 1;
      KeepAll(k[..n], s);
      assert k[..n] + [k[n]] == k;
    }
  }

  /** Removing only positions at or past `p` keeps the first `p` entries. */
  lemma {:induction false} KeepPrefix<V>(k: seq<V>, s: set<nat>, p: nat)
    requires p <= |k|
    requires forall j | j in s :: j >= p
    ensures |Keep(k, s)| >= p && Keep(k, s)[..p] == k[..p]
    decreases |k|
  {
    if |k| == p {
      KeepAll(k, s);
    } else {
      var n := |k| - 1;
      KeepPrefix(k[..n], s, p);
      assert k[..n][..p] == k[..p];
    }
  }

  lemma DropAppend<V>(a: seq<V>, x: V, i: nat)
    requires i < |a|
    ensures Drop(a + [x], i) == Drop(a, i) + [x]
  {
    assert (a + [x])[..i] == a[..i];
    assert (a + [x])[i + 1..] == a[i + 1..] + [x];
  }

  /** `KeepDrop` when `i` is the last position of the tuple. */
  lemma KeepDropLast<V>(k: seq<V>, s: set<nat>, i: nat)
    requires |k| == i + 1
    requires forall j | j in s :: j > i
    ensures Drop(Keep(k, s), i) == Keep(k, s + {i})
  {
    var k' := k[..i];
    KeepAll(k', s);
    KeepAll(k', s + {i});
    assert k' + [k[i]] == k;
    assert Keep(k, s) == k;
  }

  /** Removing a further position below all removed ones, from what
      `Keep` left, removes that position from the original tuple. */
  lemma {:induction false} KeepDrop<V>(k: seq<V>, s: set<nat>, i: nat)
    requires forall j | j in s :: j > i
    ensures Drop(Keep(k, s), i) == Keep(k, s + {i})
    decreases |k|
  {
    if |k| <= i {
      KeepAll(k, s);
      KeepAll(k, s + {i});
    } else if |k| == i + 1 {
      KeepDropLast(k, s, i);
    } else {
      var n := |k| - 1;
      var k' := k[..n];
      KeepDrop(k', s, i);
      if n !in s {
        KeepPrefix(k', s, i + 1);
        DropAppend(Keep(k', s), k[n], i);
      }
    }
  }

  /** Only the positions inside the tuple matter to `Keep`. */
  lemma {:induction false} KeepInside<V>(k: seq<V>, s: set<nat>, s': set<nat>)
    requires forall j: nat | j < |k| :: j in s <==> j in s'
    ensures Keep(k, s) == Keep(k, s')
    decreases |k|
  {
    if k != [] {
      KeepInside(k[..|k| - 1], s, s');
    }
  }

  /** Removing `|s|` positions, all inside the tuple, shortens it by `|s|`. */
  lemma {:induction false} KeepLength<V>(k: seq<V>, s: set<nat>)
    requires forall j | j in s :: j < |k|
    ensures |Keep(k, s)| == |k| - |s|
    decreases |k|
  {
    if k != [] {
      var n := |k| - 1;
      var k' := k[..n];
      if n in s {
        KeepInside(k', s, s - {n});
        KeepLength(k', s - {n});
      } else {
        KeepLength(k', s);
      }
    }
  }

  lemma {:induction false} DistinctCount(xs: seq<nat>)
    requires Distinct(xs)
    ensures forall x | x in multiset(xs) :: multiset(xs)[x] == 1
    ensures |Elements(xs)| == |xs|
  {
    if xs != [] {
      var n := |xs| - 1;
      DistinctCount(xs[..n]);
      assert xs == xs[..n] + [xs[n]];
      assert xs[n] !in xs[..n];
      var before := Elements(xs[..n]);
      assert xs[n] !in before;
      assert Elements(xs) == before + {xs[n]};
      assert |before + {xs[n]}| == |before| + 1;
    } else {
      assert Elements(xs) == {};
    }
  }

  lemma GroupByIdentity<V>(t: map<seq<V>, real>)
    ensures GroupBy(t, KeepAt({})) == t
    decreases |t|
  {
    if t != map[] {
      var k := Pick(t);
      GroupByIdentity(t - {k});
      KeepAll(k, {});
    }
  }

  /** A non-empty set of indices has a largest element. */
  lemma {:induction false} Largest(s: set<nat>) returns (i: nat)
    requires s != {}
    ensures i in s && forall j | j in s :: j <= i
    decreases |s|
  {
    var x :| x in s;
    if s - {x} == {} {
      i := x;
      forall j | j in s
        ensures j <= x
      {
        assert j !in s - {x};
      }
    } else {
      var y := Largest(s - {x});
      i := if x < y then y else x;
      forall j | j in s
        ensures j <= i
      {
        if j != x {
          assert j in s - {x};
        }
      }
    }
  }

  /** What the loop of `marginalize_multiple` has still to do: the indices
      still to visit, once each and all below those already visited. */
  ghost predicate Plan(rest: multiset<nat>, done: set<nat>, all: set<nat>)
  {
    && (forall x | x in rest :: rest[x] == 1 && x in all && x !in done)
    && (forall x | x in all :: x in rest || x in done)
    && done <= all
    && (forall x, y | x in rest && y in done :: x < y)
  }

  lemma PlanStep(rest: multiset<nat>, done: set<nat>, all: set<nat>, i: nat)
    requires Plan(rest, done, all)
    requires i in rest && forall j | j in rest :: j <= i
    ensures Plan(rest - multiset{i}, done + {i}, all)
    ensures forall j | j in done :: j > i
  {
  }

  lemma PlanStart(indices: seq<nat>)
    requires Distinct(indices)
    ensures Plan(multiset(indices), {}, Elements(indices))
  {
    DistinctCount(indices);
  }

  /** One marginalization step of the loop: summing out `i`, which lies
      below every position summed out so far, sums out one more position. */
  lemma MarginalKeep<V>(t: map<seq<V>, real>, done: set<nat>, i: nat)
    requires forall j | j in done :: j > i
    ensures Marginal(GroupBy(t, KeepAt(done)), i) == GroupBy(t, KeepAt(done + {i}))
  {
    GroupByCompose(t, KeepAt(done), DropAt(i));
    forall k | k in t
      ensures Compose(KeepAt(done), DropAt(i))(k) == KeepAt(done + {i})(k)
    {
      KeepDrop(k, done, i);
    }
    GroupByExtensional(t, Compose(KeepAt(done), DropAt(i)), KeepAt(done + {i}));
  }

  /** Sums out every position in `indices`, largest first, so that the
      positions still to be removed are not shifted by earlier removals.
      Repeatedly taking the largest remaining index visits them in the order
      of `reversed(sorted(indices))`. */
  method MarginalizeMultiple<V(==)>(t: map<seq<V>, real>, indices: seq<nat>) returns (r: map<seq<V>, real>)
    ensures Sum(r) == Sum(t)
    ensures Distinct(indices) ==> r == GroupBy(t, KeepAt(Elements(indices)))
  {
    r := t;
    var rest := multiset(indices);
    ghost var done: set<nat> := {};
    ghost var all := Elements(indices);
    GroupByIdentity(t);
    if Distinct(indices) {
      PlanStart(indices);
    }
    while rest != multiset{}
      invariant Sum(r) == Sum(t)
      invariant Distinct(indices) ==> Plan(rest, done, all)
      invariant Distinct(indices) ==> r == GroupBy(t, KeepAt(done))
      decreases |rest|
    {
      ghost var elements := set j | j in rest;
      ghost var some :| some in rest;
      assert some in elements;
      ghost var largest := Largest(elements);
      assert forall j | j in rest :: j in elements;
      var i :| i in rest && forall j | j in rest :: j <= i;
      if Distinct(indices) {
        PlanStep(rest, done, all, i);
        MarginalKeep(t, done, i);
      }
      r := Marginalize(r, i);
      rest := rest - multiset{i};
      done := done + {i};
    }
    assert Distinct(indices) ==> done == all;
  }

  /** With distinct indices, all inside every tuple of length `n`, the
      result holds tuples of length `n - |indices|`. */
  lemma MarginalizeMultipleArity<V>(t: map<seq<V>, real>, indices: seq<nat>, n: nat)
    requires Distinct(indices)
    requires forall j | j in indices :: j < n
    requires forall k | k in t :: |k| == n
    ensures forall nk | nk in GroupBy(t, KeepAt(Elements(indices))) :: |nk| == n - |indices|
  {
    var s := Elements(indices);
    DistinctCount(indices);
    GroupByKeys(t, KeepAt(s));
    assert |s| == |indices|;
    forall k | k in t
      ensures |Keep(k, s)| == n - |indices|
    {
      assert |k| == n;
      KeepLength(k, s);
    }
  }

  // ---------------------------------------------------------------------
  // normalize (hw4_p1.py:24-28)
  // ---------------------------------------------------------------------

  /** What `normalize` returns: every weight divided by the total weight.
      The division happens once per entry, so an empty table is returned
      as it is and a zero total fails only when there is an entry. */
  ghost function Normalized<K>(m: map<K, real>): Result<map<K, real>>
  {
    if m == map[] then Ok(map[])
    else if Sum(m) == 0.0 then Err(ZeroDivisionError)
    else Ok(Divided(m, Sum(m)))
  }

  method Normalize<K>(m: map<K, real>) returns (r: Result<map<K, real>>)
    ensures r == Normalized(m)
  {
    var total := TotalWeight(m);
    if m != map[] && total == 0.0 {
      return Err(ZeroDivisionError);
    }
    r := Ok(map k | k in m :: m[k] / total);
  }

  /** A normalized non-empty table sums to one. */
  lemma NormalizedSumsToOne<K>(m: map<K, real>)
    requires m != map[] && Normalized(m).Ok?
    ensures Sum(Normalized(m).value) == 1.0
  {
    SumDivided(m, Sum(m));
    DivideSelf(Sum(m));
  }

  /** Normalizing keeps the keys and the ratios between the weights. */
  lemma NormalizedProportional<K>(m: map<K, real>)
    requires Normalized(m).Ok?
    ensures Normalized(m).value.Keys == m.Keys
    ensures forall k | k in m :: Normalized(m).value[k] * Sum(m) == m[k]
  {
  }

  /** Normalizing a normalized table changes nothing. */
  lemma NormalizedIdempotent<K>(m: map<K, real>)
    requires Normalized(m).Ok?
    ensures Normalized(Normalized(m).value) == Normalized(m)
  {
    var r := Normalized(m).value;
    if m != map[] {
      NormalizedSumsToOne(m);
      assert Divided(r, 1.0) == r;
    }
  }

  /** A table that already sums to one is its own normalization. */
  lemma NormalizeFixed<K>(p: map<K, real>)
    requires Sum(p) == 1.0
    ensures Normalized(p) == Ok(p)
  {
    if p != map[] {
      assert Divided(p, 1.0) == p;
    }
  }

  /** A table with a non-negative weight and a positive total normalizes
      to non-negative weights. */
  lemma NormalizedNonNegative<K>(m: map<K, real>)
    requires forall k | k in m :: m[k] >= 0.0
    requires Sum(m) > 0.0
    ensures Normalized(m).Ok?
    ensures forall k | k in Normalized(m).value :: Normalized(m).value[k] >= 0.0
  {
  }

  // ---------------------------------------------------------------------
  // condition (hw4_p1.py:30-42)
  // ---------------------------------------------------------------------

  /** The entries whose position `i` holds `v`. */
  ghost function Filter<V>(t: map<seq<V>, real>, i: nat, v: V): map<seq<V>, real>
  {
    map k | k in t && i < |k| && k[i] == v :: t[k]
  }

  /** What `condition` returns: the distribution of the other positions
      given that position `index` holds `value`.  A key too short to have
      that position raises `IndexError`. */
  ghost function Conditioned<V>(t: map<seq<V>, real>, index: nat, value: V): Result<map<seq<V>, real>>
  {
    if exists k | k in t :: |k| <= index then Err(IndexError)
    else Normalized(Marginal(Filter(t, index, value), index))
  }

  /** Two keys that agree at position `i` and everywhere else are equal. */
  lemma DropInjective<V>(k1: seq<V>, k2: seq<V>, i: nat)
    requires i < |k1| && i < |k2| && k1[i] == k2[i]
    requires Drop(k1, i) == Drop(k2, i)
    ensures k1 == k2
  {
    assert k1 == k1[..i] + [k1[i]] + k1[i + 1..];
    assert k2 == k2[..i] + [k2[i]] + k2[i + 1..];
    assert k1[..i] == Drop(k1, i)[..i] == k2[..i];
    assert k1[i + 1..] == Drop(k1, i)[i..] == k2[i + 1..];
  }

  /** The filtered entries keep their weights after the drop: no two of
      them collapse into the same key. */
  lemma FilterMarginalAt<V>(t: map<seq<V>, real>, i: nat, v: V, k: seq<V>)
    requires k in t && i < |k| && k[i] == v
    ensures Drop(k, i) in Marginal(Filter(t, i, v), i)
    ensures Marginal(Filter(t, i, v), i)[Drop(k, i)] == t[k]
  {
    var f := Filter(t, i, v);
    var p := Preimage(f, DropAt(i), Drop(k, i));
    forall k' | k' in p
      ensures k' == k
    {
      DropInjective(k', k, i);
    }
    assert p == map[][k := t[k]];
    SumAdd(map[], k, t[k]);
    GroupByAt(f, DropAt(i), Drop(k, i));
    GroupByKeys(f, DropAt(i));
    assert Drop(k, i) in Image(f, DropAt(i));
  }

  lemma FilterAdd<V>(t: map<seq<V>, real>, rest: set<seq<V>>, k: seq<V>, i: nat, v: V)
    requires k in rest && rest <= t.Keys
    ensures i < |k| && k[i] == v ==> Filter(t - (rest - {k}), i, v) == Filter(t - rest, i, v)[k := t[k]]
    ensures !(i < |k| && k[i] == v) ==> Filter(t - (rest - {k}), i, v) == Filter(t - rest, i, v)
  {
  }

  /** One step of the loop of `condition`: a matching entry is stored
      under its shortened key, which is not yet present. */
  lemma ConditionStep<V>(t: map<seq<V>, real>, rest: set<seq<V>>, k: seq<V>, i: nat, v: V)
    requires k in rest && rest <= t.Keys && i < |k| && k[i] == v
    requires forall k' | k' in t && k' !in rest :: i < |k'|
    ensures Marginal(Filter(t - (rest - {k}), i, v), i)
         == Marginal(Filter(t - rest, i, v), i)[Drop(k, i) := t[k]]
  {
    var f := Filter(t - rest, i, v);
    var f' := Filter(t - (rest - {k}), i, v);
    FilterAdd(t, rest, k, i, v);
    assert f' - {k} == f;
    GroupByRemove(f', DropAt(i), k);
    GroupByKeys(f, DropAt(i));
    if Drop(k, i) in Marginal(f, i) {
      var k' :| k' in f && Drop(k', i) == Drop(k, i);
      DropInjective(k', k, i);
      assert false;
    }
  }

  /** Keeps the entries whose position `index` holds `value`, removes that
      position from their keys, and normalizes. */
  method Condition<V(==)>(t: map<seq<V>, real>, index: nat, value: V) returns (r: Result<map<seq<V>, real>>)
    ensures r == Conditioned(t, index, value)
  {
    var res: map<seq<V>, real> := map[];
    var rest := t.Keys;
    assert Filter(t - rest, index, value) == map[];
    while rest != {}
      invariant rest <= t.Keys
      invariant forall k | k in t && k !in rest :: index < |k|
      invariant res == Marginal(Filter(t - rest, index, value), index)
      decreases rest
    {
      var k :| k in rest;
      if |k| <= index {
        return Err(IndexError);
      }
      FilterAdd(t, rest, k, index, value);
      if k[index] == value {
        ConditionStep(t, rest, k, index, value);
        res := res[Drop(k, index) := t[k]];
      }
      rest := rest - {k};
    }
    assert t - rest == t;
    r := Normalize(res);
  }

  lemma ConditionedValue<V>(t: map<seq<V>, real>, i: nat, v: V, k: seq<V>) returns (r: map<seq<V>, real>)
    requires Conditioned(t, i, v).Ok?
    requires k in t && k[i] == v
    ensures var m := Marginal(Filter(t, i, v), i);
      && Drop(k, i) in m && m[Drop(k, i)] == t[k] && Sum(m) != 0.0
      && r == Conditioned(t, i, v).value && r == Divided(m, Sum(m))
  {
    var m := Marginal(Filter(t, i, v), i);
    assert Conditioned(t, i, v) == Normalized(m);
    FilterMarginalAt(t, i, v, k);
    r := Divided(m, Sum(m));
  }

  /** The conditional weight of a matching entry is its weight over the
      total weight of the matching entries. */
  lemma ConditionedAt<V>(t: map<seq<V>, real>, i: nat, v: V, k: seq<V>)
    requires Conditioned(t, i, v).Ok?
    requires k in t && k[i] == v
    ensures Sum(Filter(t, i, v)) != 0.0
    ensures Drop(k, i) in Conditioned(t, i, v).value
    ensures Conditioned(t, i, v).value[Drop(k, i)] == t[k] / Sum(Filter(t, i, v))
  {
    var f := Filter(t, i, v);
    var m := Marginal(f, i);
    var r := ConditionedValue(t, i, v, k);
    GroupBySum(f, DropAt(i));
    DividedAt(m, Sum(m), Drop(k, i));
  }

  /** A successful result is a distribution over the keys of the matching
      entries, with position `i` removed. */
  lemma ConditionedKeys<V>(t: map<seq<V>, real>, i: nat, v: V)
    requires Conditioned(t, i, v).Ok?
    ensures Conditioned(t, i, v).value.Keys == set k | k in t && k[i] == v :: Drop(k, i)
    ensures Conditioned(t, i, v).value != map[] ==> Sum(Conditioned(t, i, v).value) == 1.0
  {
    var f := Filter(t, i, v);
    GroupByKeys(f, DropAt(i));
    var want := set k | k in t && k[i] == v :: Drop(k, i);
    forall nk | nk in want
      ensures nk in Image(f, DropAt(i))
    {
      var k :| k in t && k[i] == v && nk == Drop(k, i);
      assert k in f;
    }
    assert Image(f, DropAt(i)) == want;
    if Marginal(f, i) != map[] {
      NormalizedSumsToOne(Marginal(f, i));
    }
  }

  /** A value that no entry holds gives an empty table, not an error. */
  lemma ConditionedAbsent<V>(t: map<seq<V>, real>, i: nat, v: V)
    requires forall k | k in t :: i < |k| && k[i] != v
    ensures Conditioned(t, i, v) == Ok(map[])
  {
    assert Filter(t, i, v) == map[];
  }
}
