/** Naive Bayes inference (`naive_bayes`, hw4_p1.py:44-66): the posterior
    over the classes given one instance, with the features independent
    given the class. */
module Inference {
  import opened Results
  import opened Sums
  import opened Tables

  // A class prior is a `map<C, real>`; the feature conditionals are a
  // `map<F, map<C, map<X, real>>>`, read as P(F = x | C = c) =
  // fp[F][c][x]; an instance is a `map<F, X>` from feature to value.

  /** Every lookup `fp[f][c][instance[f]]` made for class `c` succeeds. */
  ghost predicate DefinedFor<C, F, X>(fp: map<F, map<C, map<X, real>>>, instance: map<F, X>, c: C)
  {
    forall f | f in fp :: c in fp[f] && f in instance && instance[f] in fp[f][c]
  }

  /** Every lookup made for every class of the prior succeeds. */
  ghost predicate Defined<C, F, X>(cp: map<C, real>, fp: map<F, map<C, map<X, real>>>, instance: map<F, X>)
  {
    forall c | c in cp :: DefinedFor(fp, instance, c)
  }

  /** P(F = instance[F] | C = c) for every feature F. */
  ghost function Likelihoods<C, F, X>(fp: map<F, map<C, map<X, real>>>, instance: map<F, X>, c: C): map<F, real>
    requires DefinedFor(fp, instance, c)
  {
    map f | f in fp :: fp[f][c][instance[f]]
  }

  /** The unnormalized posterior of class `c` with prior `prior`: the
      product of the likelihoods times the prior. */
  ghost function Score<C, F, X>(fp: map<F, map<C, map<X, real>>>, instance: map<F, X>, c: C, prior: real): real
    requires DefinedFor(fp, instance, c)
  {
    Prod(Likelihoods(fp, instance, c)) * prior
  }

  lemma ScoreFrom<C, F, X>(fp: map<F, map<C, map<X, real>>>, instance: map<F, X>, c: C, prior: real, p: real)
    requires DefinedFor(fp, instance, c) && p == Prod(Likelihoods(fp, instance, c))
    ensures Score(fp, instance, c, prior) == p * prior
  {
  }

  /** The unnormalized posterior of every class. */
  ghost function Scores<C, F, X>(cp: map<C, real>, fp: map<F, map<C, map<X, real>>>, instance: map<F, X>): map<C, real>
    requires Defined(cp, fp, instance)
  {
    map c | c in cp :: Score(fp, instance, c, cp[c])
  }

  /** What `naive_bayes` returns: the normalized scores, or `KeyError` when
      a lookup fails for some class. */
  ghost function Posterior<C, F, X>(cp: map<C, real>, fp: map<F, map<C, map<X, real>>>, instance: map<F, X>): Result<map<C, real>>
  {
    if !Defined(cp, fp, instance) then Err(KeyError)
    else Normalized(Scores(cp, fp, instance))
  }

  lemma LikelihoodsAdd<C, F, X>(fp: map<F, map<C, map<X, real>>>, instance: map<F, X>, c: C, feats: set<F>, f: F)
    requires f in feats && feats <= fp.Keys
    requires DefinedFor(fp - feats, instance, c)
    requires c in fp[f] && f in instance && instance[f] in fp[f][c]
    ensures DefinedFor(fp - (feats - {f}), instance, c)
    ensures Likelihoods(fp - (feats - {f}), instance, c)
         == Likelihoods(fp - feats, instance, c)[f := fp[f][c][instance[f]]]
  {
    var now := fp - (feats - {f});
    assert forall g | g in now :: g in fp - feats || g == f;
    var after := Likelihoods(now, instance, c);
    var updated := Likelihoods(fp - feats, instance, c)[f := fp[f][c][instance[f]]];
    assert after.Keys == updated.Keys;
    forall g | g in after
      ensures after[g] == updated[g]
    {
    }
  }

  /** One step of the inner loop of `naive_bayes`: one more factor. */
  lemma LikelihoodStep<C, F, X>(fp: map<F, map<C, map<X, real>>>, instance: map<F, X>, c: C, feats: set<F>, f: F, val: real)
    requires f in feats && feats <= fp.Keys
    requires DefinedFor(fp - feats, instance, c)
    requires c in fp[f] && f in instance && instance[f] in fp[f][c]
    requires val == Prod(Likelihoods(fp - feats, instance, c))
    ensures DefinedFor(fp - (feats - {f}), instance, c)
    ensures Prod(Likelihoods(fp - (feats - {f}), instance, c)) == val * fp[f][c][instance[f]]
  {
    LikelihoodsAdd(fp, instance, c, feats, f);
    ProdAdd(Likelihoods(fp - feats, instance, c), f, fp[f][c][instance[f]]);
  }

  lemma ScoresAdd<C, F, X>(cp: map<C, real>, fp: map<F, map<C, map<X, real>>>, instance: map<F, X>, classes: set<C>, c: C)
    requires c in classes && classes <= cp.Keys
    requires Defined(cp - classes, fp, instance) && DefinedFor(fp, instance, c)
    ensures Defined(cp - (classes - {c}), fp, instance)
    ensures Scores(cp - (classes - {c}), fp, instance)
         == Scores(cp - classes, fp, instance)[c := Score(fp, instance, c, cp[c])]
  {
  }

  /** The score of class `c` with prior `prior`, or `KeyError`. */
  method ClassScore<C(==), F(==), X(==)>(fp: map<F, map<C, map<X, real>>>, instance: map<F, X>, c: C, prior: real)
    returns (r: Result<real>)
    ensures DefinedFor(fp, instance, c) <==> r.Ok?
    ensures r.Ok? ==> r.value == Score(fp, instance, c, prior)
  {
    var val := 1.0;
    var feats := fp.Keys;
    assert Likelihoods(fp - feats, instance, c) == map[];
    while feats != {}
      invariant feats <= fp.Keys
      invariant DefinedFor(fp - feats, instance, c)
      invariant val == Prod(Likelihoods(fp - feats, instance, c))
      decreases feats
    {
      var f :| f in feats;
      if c !in fp[f] || f !in instance || instance[f] !in fp[f][c] {
        assert !DefinedFor(fp, instance, c) by { assert f in fp; }
        return Err(KeyError);
      }
      LikelihoodStep(fp, instance, c, feats, f, val);
      val := val * fp[f][c][instance[f]];
      feats := feats - {f};
    }
    assert fp - feats == fp;
    ScoreFrom(fp, instance, c, prior, val);
    r := Ok(val * prior);
  }

  /** The posterior over the classes given `instance`. */
  method NaiveBayes<C(==), F(==), X(==)>(cp: map<C, real>, fp: map<F, map<C, map<X, real>>>, instance: map<F, X>)
    returns (r: Result<map<C, real>>)
    ensures r == Posterior(cp, fp, instance)
  {
    var a: map<C, real> := map[];
    var classes := cp.Keys;
    assert Scores(cp - classes, fp, instance) == map[];
    while classes != {}
      invariant classes <= cp.Keys
      invariant Defined(cp - classes, fp, instance)
      invariant a == Scores(cp - classes, fp, instance)
      decreases classes
    {
      var c :| c in classes;
      var score := ClassScore(fp, instance, c, cp[c]);
      if score.Err? {
        return Err(KeyError);
      }
      ScoresAdd(cp, fp, instance, classes, c);
      a := a[c := score.value];
      classes := classes - {c};
    }
    assert cp - classes == cp;
    r := Normalize(a);
  }

  /** A successful posterior is a distribution over the classes of the
      prior: it has their keys and, when there is a class, sums to one. */
  lemma PosteriorDistribution<C, F, X>(cp: map<C, real>, fp: map<F, map<C, map<X, real>>>, instance: map<F, X>)
    requires Posterior(cp, fp, instance).Ok?
    ensures Posterior(cp, fp, instance).value.Keys == cp.Keys
    ensures cp != map[] ==> Sum(Posterior(cp, fp, instance).value) == 1.0
  {
    var s := Scores(cp, fp, instance);
    assert s.Keys == cp.Keys;
    if cp != map[] {
      NormalizedSumsToOne(s);
    }
  }

  /** An instance without a value for some feature fails with `KeyError`
      as soon as there is a class. */
  lemma PosteriorMissingFeature<C, F, X>(cp: map<C, real>, fp: map<F, map<C, map<X, real>>>, instance: map<F, X>, f: F)
    requires cp != map[] && f in fp && f !in instance
    ensures Posterior(cp, fp, instance) == Err(KeyError)
  {
    var c := Pick(cp);
    assert !DefinedFor(fp, instance, c);
  }

  /** `instance` and `other` agree on the features that have conditionals. */
  ghost predicate Agree<F, X>(features: set<F>, instance: map<F, X>, other: map<F, X>)
  {
    && (forall f | f in features :: f in instance <==> f in other)
    && (forall f | f in features && f in instance :: instance[f] == other[f])
  }

  lemma ScoreAgree<C, F, X>(fp: map<F, map<C, map<X, real>>>, instance: map<F, X>, other: map<F, X>, c: C, prior: real)
    requires Agree(fp.Keys, instance, other)
    ensures DefinedFor(fp, instance, c) <==> DefinedFor(fp, other, c)
    ensures DefinedFor(fp, instance, c) ==> Score(fp, instance, c, prior) == Score(fp, other, c, prior)
  {
    if DefinedFor(fp, instance, c) {
      assert Likelihoods(fp, instance, c) == Likelihoods(fp, other, c);
    }
  }

  lemma DefinedAgree<C, F, X>(cp: map<C, real>, fp: map<F, map<C, map<X, real>>>, instance: map<F, X>, other: map<F, X>)
    requires Agree(fp.Keys, instance, other)
    ensures Defined(cp, fp, instance) <==> Defined(cp, fp, other)
  {
    forall c | c in cp
      ensures DefinedFor(fp, instance, c) <==> DefinedFor(fp, other, c)
    {
      ScoreAgree(fp, instance, other, c, cp[c]);
    }
  }

  lemma ScoresAgree<C, F, X>(cp: map<C, real>, fp: map<F, map<C, map<X, real>>>, instance: map<F, X>, other: map<F, X>)
    requires Agree(fp.Keys, instance, other) && Defined(cp, fp, instance) && Defined(cp, fp, other)
    ensures Scores(cp, fp, instance) == Scores(cp, fp, other)
  {
    forall c | c in cp
      ensures Score(fp, instance, c, cp[c]) == Score(fp, other, c, cp[c])
    {
      ScoreAgree(fp, instance, other, c, cp[c]);
    }
  }

  /** Values of the instance for features without conditionals are ignored. */
  lemma PosteriorIgnoresExtra<C, F, X>(cp: map<C, real>, fp: map<F, map<C, map<X, real>>>, instance: map<F, X>, other: map<F, X>)
    requires forall f | f in fp :: (f in instance <==> f in other)
    requires forall f | f in fp && f in instance :: instance[f] == other[f]
    ensures Posterior(cp, fp, instance) == Posterior(cp, fp, other)
  {
    assert Agree(fp.Keys, instance, other);
    DefinedAgree(cp, fp, instance, other);
    if Defined(cp, fp, instance) {
      ScoresAgree(cp, fp, instance, other);
    }
  }

  /** Without features the posterior is the normalized prior. */
  lemma PosteriorNoFeatures<C, F, X>(cp: map<C, real>, fp: map<F, map<C, map<X, real>>>, instance: map<F, X>)
    requires fp == map[]
    ensures Posterior(cp, fp, instance) == Normalized(cp)
  {
    forall c | c in cp
      ensures Score(fp, instance, c, cp[c]) == cp[c]
    {
      assert Likelihoods(fp, instance, c) == map[];
    }
    assert Scores(cp, fp, instance) == cp;
  }

  lemma ScorePositive<C, F, X>(fp: map<F, map<C, map<X, real>>>, instance: map<F, X>, c: C, prior: real)
    requires DefinedFor(fp, instance, c) && prior > 0.0
    requires forall f | f in fp :: fp[f][c][instance[f]] > 0.0
    ensures Score(fp, instance, c, prior) > 0.0
  {
    ProdPositive(Likelihoods(fp, instance, c));
    PositiveProduct(Prod(Likelihoods(fp, instance, c)), prior);
  }

  /** Positive priors and positive likelihoods give a posterior in which
      every class is possible. */
  lemma PosteriorPositive<C, F, X>(cp: map<C, real>, fp: map<F, map<C, map<X, real>>>, instance: map<F, X>)
    requires cp != map[] && Defined(cp, fp, instance)
    requires forall c | c in cp :: cp[c] > 0.0
    requires forall f, c | f in fp && c in cp :: fp[f][c][instance[f]] > 0.0
    ensures Posterior(cp, fp, instance).Ok?
    ensures forall c | c in cp :: Posterior(cp, fp, instance).value[c] > 0.0
  {
    var s := Scores(cp, fp, instance);
    forall c | c in cp
      ensures s[c] > 0.0
    {
      ScorePositive(fp, instance, c, cp[c]);
    }
    SumPositive(s);
    var r := Divided(s, Sum(s));
    assert Posterior(cp, fp, instance) == Ok(r);
    forall c | c in cp
      ensures r[c] > 0.0
    {
      DividedAt(s, Sum(s), c);
      PositiveRatio(s[c], Sum(s));
    }
  }
}
