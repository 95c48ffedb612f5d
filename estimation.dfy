/** Learning distributions from data (hw4_p2.py): the uniform
    distribution, the validity check, discrete estimation with virtual
    counts, and learning a Naive Bayes model. */
module Estimation {
  import opened Results
  import opened Sums

  // ---------------------------------------------------------------------
  // uniform and valid_probability_distribution (hw4_p2.py:2-9)
  // ---------------------------------------------------------------------

  /** Every value of the domain gets `1 / |domain|`.  The division happens
      once per value, so an empty domain gives an empty map. */
  function Uniform<T(==)>(domain: set<T>): (r: map<T, real>)
    ensures r.Keys == domain
    ensures forall v, w | v in r && w in r :: r[v] == r[w]
    ensures domain != {} ==> forall v | v in r :: r[v] > 0.0
  {
    map v | v in domain :: 1.0 / (|domain| as real)
  }

  /** The tolerance of the validity check. */
  const Tolerance: real := 0.00001

  /** No negative value, and a total within `Tolerance` of one. */
  ghost predicate ValidDistribution<T>(p: map<T, real>)
  {
    && (forall v | v in p :: p[v] >= 0.0)
    && -Tolerance <= Sum(p) - 1.0 <= Tolerance
  }

  /** `valid_probability_distribution`: no negative value, then the
      distance of the total from one. */
  method IsValidDistribution<T(==)>(p: map<T, real>) returns (b: bool)
    ensures b <==> ValidDistribution(p)
  {
    if exists v | v in p :: p[v] < 0.0 {
      return false;
    }
    var s := TotalWeight(p);
    var d := s - 1.0;
    var magnitude := if d < 0.0 then -d else d;
    if magnitude > Tolerance {
      return false;
    }
    return true;
  }

  lemma UniformStep(n: real)
    requires n > 0.0
    ensures 1.0 / n * n == 1.0
  {
  }

  /** The uniform distribution over a non-empty domain is valid and sums
      to exactly one. */
  lemma UniformValid<T>(domain: set<T>)
    requires domain != {}
    ensures Uniform(domain).Keys == domain
    ensures Sum(Uniform(domain)) == 1.0
    ensures ValidDistribution(Uniform(domain))
  {
    var u := Uniform(domain);
    var n := |domain| as real;
    assert |u| == |domain| by { assert u.Keys == domain; }
    SumConstant(u, 1.0 / n);
    UniformStep(n);
  }

  // ---------------------------------------------------------------------
  // learn_discrete (hw4_p2.py:11-31)
  // ---------------------------------------------------------------------

  /** The number of occurrences of `v` in `dataset`. */
  function Count<T(==)>(dataset: seq<T>, v: T): nat
  {
    multiset(dataset)[v]
  }

  /** `set(dataset)`: the values that occur. */
  function Observed<T(==)>(dataset: seq<T>): set<T>
  {
    set x | x in dataset
  }

  /** The domain used: the given one, or the set of observed values. */
  function DomainOr<T(==)>(domain: Option<set<T>>, dataset: seq<T>): set<T>
  {
    if domain.Some? then domain.value else Observed(dataset)
  }

  /** `len(domain) * virtual_count + len(dataset)`. */
  function Denominator<T(==)>(dataset: seq<T>, virtualCount: real, domain: set<T>): real
  {
    (|domain| as real) * virtualCount + (|dataset| as real)
  }

  /** What `learn_discrete` returns: each value of the domain weighs its
      count plus the virtual count, over the denominator.  The division
      happens once per value, so only a non-empty domain with a zero
      denominator fails. */
  function Discrete<T(==)>(dataset: seq<T>, virtualCount: real, domain: set<T>): Result<map<T, real>>
  {
    var den := Denominator(dataset, virtualCount, domain);
    if domain != {} && den == 0.0 then Err(ZeroDivisionError)
    else Ok(map v | v in domain :: (Count(dataset, v) as real + virtualCount) / den)
  }

  /** The learned distribution is over exactly the domain. */
  lemma DiscreteKeys<T>(dataset: seq<T>, virtualCount: real, domain: set<T>)
    requires Discrete(dataset, virtualCount, domain).Ok?
    ensures Discrete(dataset, virtualCount, domain).value.Keys == domain
  {
  }

  /** The inner loop of `learn_discrete`: how often `v` occurs. */
  method CountOf<T(==)>(dataset: seq<T>, v: T) returns (count: real)
    ensures count == Count(dataset, v) as real
  {
    count := 0.0;
    var j := 0;
    while j < |dataset|
      invariant 0 <= j <= |dataset|
      invariant count == multiset(dataset[..j])[v] as real
    {
      assert dataset[..j + 1] == dataset[..j] + [dataset[j]];
      if v == dataset[j] {
        count := count + 1.0;
      }
      j := j + 1;
    }
    assert dataset[..j] == dataset;
  }

  /** Counts the occurrences of every value of the domain and divides. */
  method LearnDiscrete<T(==)>(dataset: seq<T>, virtualCount: real, domain: Option<set<T>>)
    returns (r: Result<map<T, real>>)
    ensures r == Discrete(dataset, virtualCount, DomainOr(domain, dataset))
  {
    var dom := if domain.Some? then domain.value else Observed(dataset);
    var denominator := (|dom| as real) * virtualCount + (|dataset| as real);
    var a: map<T, real> := map[];
    var rest := dom;
    while rest != {}
      invariant rest <= dom
      invariant denominator == 0.0 ==> rest == dom && a == map[]
      invariant denominator != 0.0 ==>
        a == map v | v in dom - rest :: (Count(dataset, v) as real + virtualCount) / denominator
      decreases rest
    {
      var v :| v in rest;
      var count := CountOf(dataset, v);
      if denominator == 0.0 {
        return Err(ZeroDivisionError);
      }
      a := a[v := (count + virtualCount) / denominator];
      rest := rest - {v};
    }
    assert dom == DomainOr(domain, dataset);
    assert denominator == Denominator(dataset, virtualCount, dom);
    if denominator == 0.0 {
      assert dom == {};
      assert Discrete(dataset, virtualCount, dom).value == map[];
    } else {
      assert dom - rest == dom;
    }
    r := Ok(a);
  }

  /** The number of entries of `dataset` that lie in `domain`. */
  ghost function Inside<T>(dataset: seq<T>, domain: set<T>): nat
  {
    if dataset == [] then 0
    else Inside(dataset[..|dataset| - 1], domain) + (if dataset[|dataset| - 1] in domain then 1 else 0)
  }

  lemma {:induction false} InsideBounds<T>(dataset: seq<T>, domain: set<T>)
    ensures Inside(dataset, domain) <= |dataset|
    ensures (forall i | 0 <= i < |dataset| :: dataset[i] in domain) <==> Inside(dataset, domain) == |dataset|
  {
    if dataset != [] {
      var n := |dataset| - 1;
      InsideBounds(dataset[..n], domain);
      if forall i | 0 <= i < |dataset| :: dataset[i] in domain {
        assert forall i | 0 <= i < n :: dataset[..n][i] in domain;
      } else {
        var i :| 0 <= i < |dataset| && dataset[i] !in domain;
        if i < n {
          assert dataset[..n][i] !in domain;
        }
      }
    }
  }

  /** The count of every value of the domain. */
  ghost function Counts<T>(dataset: seq<T>, domain: set<T>): map<T, real>
  {
    map v | v in domain :: Count(dataset, v) as real
  }

  /** One more entry adds one to its own count, if it is in the domain. */
  lemma CountsAppend<T>(dataset: seq<T>, x: T, domain: set<T>)
    ensures x in domain ==> Counts(dataset + [x], domain) == Bump(Counts(dataset, domain), x, 1.0)
    ensures x !in domain ==> Counts(dataset + [x], domain) == Counts(dataset, domain)
  {
    assert multiset(dataset + [x]) == multiset(dataset) + multiset{x};
    var after := Counts(dataset + [x], domain);
    if x in domain {
      var bumped := Bump(Counts(dataset, domain), x, 1.0);
      assert after.Keys == bumped.Keys;
      forall v | v in after
        ensures after[v] == bumped[v]
      {
      }
    } else {
      assert after.Keys == Counts(dataset, domain).Keys;
    }
  }

  /** Adding up the counts over the domain counts the entries inside it. */
  lemma {:induction false} CountsSum<T>(dataset: seq<T>, domain: set<T>)
    ensures Sum(Counts(dataset, domain)) == Inside(dataset, domain) as real
  {
    if dataset == [] {
      SumConstant(Counts(dataset, domain), 0.0);
    } else {
      var n := |dataset| - 1;
      var x := dataset[n];
      assert dataset == dataset[..n] + [x];
      CountsSum(dataset[..n], domain);
      CountsAppend(dataset[..n], x, domain);
      if x in domain {
        SumBump(Counts(dataset[..n], domain), x, 1.0);
      }
    }
  }

  lemma DiscreteShape<T>(dataset: seq<T>, virtualCount: real, domain: set<T>)
    requires Denominator(dataset, virtualCount, domain) != 0.0
    ensures Discrete(dataset, virtualCount, domain).Ok?
    ensures Discrete(dataset, virtualCount, domain).value
         == Divided(Shifted(Counts(dataset, domain), virtualCount), Denominator(dataset, virtualCount, domain))
  {
  }

  lemma CountStep(shifted: real, counted: real, keys: real, inside: real, n: real, vc: real)
    requires shifted == counted + vc * keys
    requires counted == inside && keys == n
    ensures shifted == inside + n * vc
  {
  }

  lemma CountsSize<T>(dataset: seq<T>, domain: set<T>)
    ensures |Counts(dataset, domain)| == |domain|
  {
    assert Counts(dataset, domain).Keys == domain;
  }

  /** The counts over the domain plus one virtual count per value. */
  lemma ShiftedCountsSum<T>(dataset: seq<T>, virtualCount: real, domain: set<T>)
    ensures Sum(Shifted(Counts(dataset, domain), virtualCount))
         == Inside(dataset, domain) as real + (|domain| as real) * virtualCount
  {
    var c := Counts(dataset, domain);
    SumShiftedConstant(c, virtualCount);
    CountsSum(dataset, domain);
    CountsSize(dataset, domain);
    CountStep(Sum(Shifted(c, virtualCount)), Sum(c), |c| as real, Inside(dataset, domain) as real, |domain| as real, virtualCount);
  }

  /** The learned weights add up to the counts inside the domain plus the
      virtual counts, over the denominator. */
  lemma DiscreteSum<T>(dataset: seq<T>, virtualCount: real, domain: set<T>)
    requires Denominator(dataset, virtualCount, domain) != 0.0
    ensures Discrete(dataset, virtualCount, domain).Ok?
    ensures Sum(Discrete(dataset, virtualCount, domain).value)
         == Sum(Shifted(Counts(dataset, domain), virtualCount)) / Denominator(dataset, virtualCount, domain)
  {
    DiscreteShape(dataset, virtualCount, domain);
    SumDivided(Shifted(Counts(dataset, domain), virtualCount), Denominator(dataset, virtualCount, domain));
  }

  lemma RatioBelowOne(x: real, d: real)
    requires 0.0 < d && x < d
    ensures x / d < 1.0
  {
  }

  /** With every observed value inside the domain, the learned weights sum
      to exactly one. */
  lemma DiscreteSumsToOne<T>(dataset: seq<T>, virtualCount: real, domain: set<T>)
    requires Denominator(dataset, virtualCount, domain) != 0.0
    requires forall i | 0 <= i < |dataset| :: dataset[i] in domain
    ensures Discrete(dataset, virtualCount, domain).Ok?
    ensures Sum(Discrete(dataset, virtualCount, domain).value) == 1.0
  {
    DiscreteSum(dataset, virtualCount, domain);
    ShiftedCountsSum(dataset, virtualCount, domain);
    InsideBounds(dataset, domain);
    DivideSelf(Denominator(dataset, virtualCount, domain));
  }

  /** Observed values outside the domain are not counted anywhere: with a
      positive denominator, the weights then sum to less than one. */
  lemma DiscreteLosesOutside<T>(dataset: seq<T>, virtualCount: real, domain: set<T>, i: nat)
    requires Denominator(dataset, virtualCount, domain) > 0.0
    requires i < |dataset| && dataset[i] !in domain
    ensures Discrete(dataset, virtualCount, domain).Ok?
    ensures Sum(Discrete(dataset, virtualCount, domain).value) < 1.0
  {
    DiscreteSum(dataset, virtualCount, domain);
    ShiftedCountsSum(dataset, virtualCount, domain);
    InsideBounds(dataset, domain);
    RatioBelowOne(Inside(dataset, domain) as real + (|domain| as real) * virtualCount,
                  Denominator(dataset, virtualCount, domain));
  }

  /** A positive virtual count gives every value of a non-empty domain a
      positive probability, observed or not. */
  lemma DiscretePositive<T>(dataset: seq<T>, virtualCount: real, domain: set<T>)
    requires domain != {} && virtualCount > 0.0
    ensures Discrete(dataset, virtualCount, domain).Ok?
    ensures forall v | v in domain :: Discrete(dataset, virtualCount, domain).value[v] > 0.0
  {
    var den := Denominator(dataset, virtualCount, domain);
    PositiveDenominator(|domain| as real, virtualCount, |dataset| as real);
    forall v | v in domain
      ensures Discrete(dataset, virtualCount, domain).value[v] > 0.0
    {
      PositiveRatio(Count(dataset, v) as real + virtualCount, den);
    }
  }

  /** With a non-negative virtual count, a positive denominator and every
      observed value inside the domain, the result passes the validity
      check. */
  lemma DiscreteValid<T>(dataset: seq<T>, virtualCount: real, domain: set<T>)
    requires virtualCount >= 0.0 && Denominator(dataset, virtualCount, domain) > 0.0
    requires forall i | 0 <= i < |dataset| :: dataset[i] in domain
    ensures Discrete(dataset, virtualCount, domain).Ok?
    ensures ValidDistribution(Discrete(dataset, virtualCount, domain).value)
  {
    var den := Denominator(dataset, virtualCount, domain);
    DiscreteSumsToOne(dataset, virtualCount, domain);
    forall v | v in domain
      ensures Discrete(dataset, virtualCount, domain).value[v] >= 0.0
    {
      NonNegativeRatio(Count(dataset, v) as real + virtualCount, den);
    }
  }

  lemma VirtualOnly(vc: real, n: real, den: real, x: real)
    requires vc > 0.0 && n > 0.0
    requires den == n * vc + 0.0 && x == (0.0 + vc) / den
    ensures x == 1.0 / n
  {
    assert vc / (n * vc) == 1.0 / n;
  }

  /** Without data, a positive virtual count gives the uniform distribution. */
  lemma DiscreteNoData<T>(virtualCount: real, domain: set<T>)
    requires virtualCount > 0.0 && domain != {}
    ensures Discrete([], virtualCount, domain) == Ok(Uniform(domain))
  {
    var n := |domain| as real;
    var den := Denominator([], virtualCount, domain);
    assert den == n * virtualCount + 0.0;
    assert den != 0.0 by {
      PositiveDenominator(n, virtualCount, 0.0);
    }
    var d := Discrete([], virtualCount, domain).value;
    var u := Uniform(domain);
    forall v | v in domain
      ensures d[v] == u[v]
    {
      assert Count([], v) == 0;
      VirtualOnly(virtualCount, n, den, d[v]);
    }
    assert d == u;
  }

  /** With no virtual count and the observed values as domain, each value
      gets its relative frequency in the data. */
  lemma DiscreteFrequency<T>(dataset: seq<T>)
    requires dataset != []
    ensures var d := Discrete(dataset, 0.0, Observed(dataset));
      d.Ok? && forall v | v in Observed(dataset) :: d.value[v] == Count(dataset, v) as real / |dataset| as real
  {
    var dom := Observed(dataset);
    var den := Denominator(dataset, 0.0, dom);
    assert den == (|dom| as real) * 0.0 + (|dataset| as real);
    var d := Discrete(dataset, 0.0, dom).value;
    forall v | v in dom
      ensures d[v] == Count(dataset, v) as real / |dataset| as real
    {
      assert d[v] == (Count(dataset, v) as real + 0.0) / den;
    }
  }

  /** `learn_discrete(dataset, 1, domain)`: with one virtual count per
      value the denominator is positive whenever the domain is not empty,
      so this call never fails. */
  function Smoothed<T(==)>(dataset: seq<T>, domain: set<T>): (r: map<T, real>)
    ensures Discrete(dataset, 1.0, domain) == Ok(r)
  {
    Discrete(dataset, 1.0, domain).value
  }
}
