/** Learning a Naive Bayes model from labelled records
    (`learn_naive_bayes`, hw4_p2.py:33-99): a class prior from the class
    column with virtual counts, and for every feature and class a
    distribution over the feature's domain learned from the records of
    that class with one virtual count per value. */
module Learning {
  import opened Results
  import opened Sums
  import opened Estimation
  import Inference

  // A record is a dictionary from keys (the class key and the feature
  // names) to values.

  /** Every record has `key`, so `instance[key]` never fails. */
  predicate HasKey<K, X>(dataset: seq<map<K, X>>, key: K)
  {
    forall i | 0 <= i < |dataset| :: key in dataset[i]
  }

  /** `[instance[key] for instance in dataset]`. */
  function Column<K, X>(dataset: seq<map<K, X>>, key: K): (r: seq<X>)
    requires HasKey(dataset, key)
    ensures |r| == |dataset|
    ensures forall i | 0 <= i < |dataset| :: r[i] == dataset[i][key]
  {
    if dataset == [] then []
    else Column(dataset[..|dataset| - 1], key) + [dataset[|dataset| - 1][key]]
  }

  /** Every record of class `c` has feature `f`. */
  ghost predicate Covers<K, X>(dataset: seq<map<K, X>>, classKey: K, c: X, f: K)
    requires HasKey(dataset, classKey)
  {
    forall i | 0 <= i < |dataset| && dataset[i][classKey] == c :: f in dataset[i]
  }

  /** The values of feature `f` in the records of class `c`, in order:
      the `tempdata` list of hw4_p2.py:89-93. */
  ghost function Matching<K, X>(dataset: seq<map<K, X>>, classKey: K, c: X, f: K): seq<X>
    requires HasKey(dataset, classKey) && Covers(dataset, classKey, c, f)
  {
    if dataset == [] then []
    else
      var n := |dataset| - 1;
      Matching(dataset[..n], classKey, c, f) + (if dataset[n][classKey] == c then [dataset[n][f]] else [])
  }

  /** Collects `tempdata`, failing with `KeyError` at the first record of
      class `c` without feature `f`.  The class key was read from every
      record before (hw4_p2.py:74), so it is present. */
  method ClassSlice<K, X(==)>(dataset: seq<map<K, X>>, classKey: K, c: X, f: K) returns (r: Result<seq<X>>)
    requires HasKey(dataset, classKey)
    ensures r.Ok? <==> Covers(dataset, classKey, c, f)
    ensures r.Ok? ==> r.value == Matching(dataset, classKey, c, f)
  {
    var tempdata: seq<X> := [];
    var j := 0;
    while j < |dataset|
      invariant 0 <= j <= |dataset|
      invariant Covers(dataset[..j], classKey, c, f)
      invariant tempdata == Matching(dataset[..j], classKey, c, f)
    {
      assert dataset[..j + 1][..j] == dataset[..j];
      if dataset[j][classKey] == c {
        if f !in dataset[j] {
          return Err(KeyError);
        }
        tempdata := tempdata + [dataset[j][f]];
      }
      j := j + 1;
    }
    assert dataset[..j] == dataset;
    r := Ok(tempdata);
  }

  /** Every feature of `keys` without a given domain is in every record. */
  ghost predicate Present<K, X>(keys: seq<K>, dataset: seq<map<K, X>>, given: map<K, set<X>>)
  {
    forall f | f in keys && f !in given :: HasKey(dataset, f)
  }

  /** `given`, with the observed values for every feature of `keys` that
      has no given domain. */
  ghost function Filled<K, X>(keys: seq<K>, dataset: seq<map<K, X>>, given: map<K, set<X>>): map<K, set<X>>
    requires Present(keys, dataset, given)
  {
    given + map f | f in keys && f !in given :: Observed(Column(dataset, f))
  }

  lemma FilledKeys<K, X>(keys: seq<K>, dataset: seq<map<K, X>>, given: map<K, set<X>>, f: K)
    requires Present(keys, dataset, given)
    ensures f in Filled(keys, dataset, given) <==> f in given || f in keys
  {
  }

  /** One more feature: its observed values are added unless it already
      has a domain. */
  lemma FilledStep<K, X>(keys: seq<K>, f: K, dataset: seq<map<K, X>>, given: map<K, set<X>>)
    requires Present(keys, dataset, given)
    requires f !in given ==> HasKey(dataset, f)
    ensures Present(keys + [f], dataset, given)
    ensures f in Filled(keys, dataset, given) ==> Filled(keys + [f], dataset, given) == Filled(keys, dataset, given)
    ensures f !in Filled(keys, dataset, given) ==>
      Filled(keys + [f], dataset, given) == Filled(keys, dataset, given)[f := Observed(Column(dataset, f))]
  {
    var before := Filled(keys, dataset, given);
    var after := Filled(keys + [f], dataset, given);
    assert forall g :: g in keys + [f] <==> g in keys || g == f;
    if f in before {
      assert after.Keys == before.Keys;
      forall g | g in after
        ensures after[g] == before[g]
      {
      }
    } else {
      var updated := before[f := Observed(Column(dataset, f))];
      assert after.Keys == updated.Keys;
      forall g | g in after
        ensures after[g] == updated[g]
      {
      }
    }
  }

  /** The feature domains after hw4_p2.py:49-54: the given ones, and for
      every other feature the values observed in the records; `KeyError`
      when a feature without a given domain is missing from a record. */
  ghost function Completed<K, X>(featureKeys: seq<K>, dataset: seq<map<K, X>>, given: map<K, set<X>>): (r: Result<map<K, set<X>>>)
    ensures r.Ok? <==> Present(featureKeys, dataset, given)
    ensures r.Ok? ==> forall f | f in featureKeys :: f in r.value
    ensures r.Ok? ==> forall f | f in given :: f in r.value && r.value[f] == given[f]
    ensures r.Ok? ==> forall f | f in featureKeys && f !in given :: r.value[f] == Observed(Column(dataset, f))
  {
    if !Present(featureKeys, dataset, given) then Err(KeyError)
    else Ok(Filled(featureKeys, dataset, given))
  }

  /** A missing `feature_domains` is an empty dictionary. */
  function Given<K, X>(featureDomains: Option<map<K, set<X>>>): map<K, set<X>>
  {
    if featureDomains.Some? then featureDomains.value else map[]
  }

  /** The loop of hw4_p2.py:52-54. */
  method CompleteDomains<K(==), X(==)>(featureKeys: seq<K>, dataset: seq<map<K, X>>, featureDomains: Option<map<K, set<X>>>)
    returns (r: Result<map<K, set<X>>>)
    ensures r == Completed(featureKeys, dataset, Given(featureDomains))
  {
    var given := Given(featureDomains);
    var domains := given;
    var i := 0;
    while i < |featureKeys|
      invariant 0 <= i <= |featureKeys|
      invariant Present(featureKeys[..i], dataset, given)
      invariant domains == Filled(featureKeys[..i], dataset, given)
    {
      var f := featureKeys[i];
      assert featureKeys[..i + 1] == featureKeys[..i] + [f];
      FilledKeys(featureKeys[..i], dataset, given, f);
      if f !in domains {
        if !HasKey(dataset, f) {
          assert f in featureKeys && f !in given;
          return Err(KeyError);
        }
        FilledStep(featureKeys[..i], f, dataset, given);
        domains := domains[f := Observed(Column(dataset, f))];
      } else {
        FilledStep(featureKeys[..i], f, dataset, given);
      }
      i := i + 1;
    }
    assert featureKeys[..i] == featureKeys;
    r := Ok(domains);
  }

  /** `class_info` for one feature: for every class of the domain, the
      smoothed distribution of the feature over its domain in the records
      of that class. */
  ghost function ClassInfo<K, X>(dataset: seq<map<K, X>>, classKey: K, f: K, classDomain: set<X>, domain: set<X>): map<X, map<X, real>>
    requires HasKey(dataset, classKey)
    requires forall c | c in classDomain :: Covers(dataset, classKey, c, f)
  {
    map c | c in classDomain :: Smoothed(Matching(dataset, classKey, c, f), domain)
  }

  /** The loop of hw4_p2.py:87-95 for one feature. */
  method LearnClassInfo<K, X(==)>(dataset: seq<map<K, X>>, classKey: K, f: K, classDomain: set<X>, domain: set<X>)
    returns (r: Result<map<X, map<X, real>>>)
    requires HasKey(dataset, classKey)
    ensures r.Ok? <==> forall c | c in classDomain :: Covers(dataset, classKey, c, f)
    ensures r.Ok? ==> r.value == ClassInfo(dataset, classKey, f, classDomain, domain)
  {
    var info: map<X, map<X, real>> := map[];
    var rest := classDomain;
    while rest != {}
      invariant rest <= classDomain
      invariant forall c | c in classDomain - rest :: Covers(dataset, classKey, c, f)
      invariant info == ClassInfo(dataset, classKey, f, classDomain - rest, domain)
      decreases rest
    {
      var c :| c in rest;
      var tempdata := ClassSlice(dataset, classKey, c, f);
      if tempdata.Err? {
        return Err(KeyError);
      }
      var learned := LearnDiscrete(tempdata.value, 1.0, Some(domain));
      info := info[c := learned.value];
      rest := rest - {c};
    }
    assert classDomain - rest == classDomain;
    r := Ok(info);
  }

  /** `PFlearned`: the class information of every feature. */
  ghost function Conditionals<K, X>(dataset: seq<map<K, X>>, classKey: K, featureKeys: seq<K>, classDomain: set<X>,
                                    domains: map<K, set<X>>): map<K, map<X, map<X, real>>>
    requires HasKey(dataset, classKey)
    requires forall f | f in featureKeys :: f in domains
    requires forall f, c | f in featureKeys && c in classDomain :: Covers(dataset, classKey, c, f)
  {
    map f | f in featureKeys :: ClassInfo(dataset, classKey, f, classDomain, domains[f])
  }

  /** The loop of hw4_p2.py:83-97. */
  method LearnConditionals<K(==), X(==)>(dataset: seq<map<K, X>>, classKey: K, featureKeys: seq<K>, classDomain: set<X>,
                                         domains: map<K, set<X>>)
    returns (r: Result<map<K, map<X, map<X, real>>>>)
    requires HasKey(dataset, classKey)
    requires forall f | f in featureKeys :: f in domains
    ensures r.Ok? <==> forall f, c | f in featureKeys && c in classDomain :: Covers(dataset, classKey, c, f)
    ensures r.Ok? ==> r.value == Conditionals(dataset, classKey, featureKeys, classDomain, domains)
  {
    var learned: map<K, map<X, map<X, real>>> := map[];
    var i := 0;
    while i < |featureKeys|
      invariant 0 <= i <= |featureKeys|
      invariant forall f, c | f in featureKeys[..i] && c in classDomain :: Covers(dataset, classKey, c, f)
      invariant learned == Conditionals(dataset, classKey, featureKeys[..i], classDomain, domains)
    {
      var f := featureKeys[i];
      assert featureKeys[..i + 1] == featureKeys[..i] + [f];
      var info := LearnClassInfo(dataset, classKey, f, classDomain, domains[f]);
      if info.Err? {
        return Err(KeyError);
      }
      learned := learned[f := info.value];
      i := i + 1;
    }
    assert featureKeys[..i] == featureKeys;
    r := Ok(learned);
  }

  /** The pair `(PClearned, PFlearned)`: the class prior, and for every
      feature `f`, class `c` and value `x`, P(f = x | class = c) as
      `conditionals[f][c][x]`, the shape `naive_bayes` reads.  `domains`
      is the caller's `feature_domains` after the code has completed it
      in place: every feature key with its domain. */
  datatype Model<K, X> = Model(prior: map<X, real>, conditionals: map<K, map<X, map<X, real>>>, domains: map<K, set<X>>)

  /** What `learn_naive_bayes` returns.  `KeyError` when a record lacks the
      class key, or lacks a feature whose domain is not given, or when a
      record of a class of the domain lacks a feature; `ZeroDivisionError`
      when the class prior divides by zero.  `feature_posterior_count` is
      not a parameter: the conditionals always use one virtual count. */
  ghost function Learned<K, X>(classKey: K, featureKeys: seq<K>, dataset: seq<map<K, X>>, classPriorCount: real,
                               classDomain: Option<set<X>>, featureDomains: Option<map<K, set<X>>>): Result<Model<K, X>>
  {
    if !HasKey(dataset, classKey) then Err(KeyError)
    else
      var domains := Completed(featureKeys, dataset, Given(featureDomains));
      if domains.Err? then Err(KeyError)
      else
        var labels := Column(dataset, classKey);
        var classes := DomainOr(classDomain, labels);
        var prior := Discrete(labels, classPriorCount, classes);
        if prior.Err? then Err(ZeroDivisionError)
        else if !(forall f, c | f in featureKeys && c in classes :: Covers(dataset, classKey, c, f)) then Err(KeyError)
        else Ok(Model(prior.value, Conditionals(dataset, classKey, featureKeys, classes, domains.value), domains.value))
  }

  /** Learns the class prior and the feature conditionals. */
  method LearnNaiveBayes<K(==), X(==)>(classKey: K, featureKeys: seq<K>, dataset: seq<map<K, X>>,
                                       classPriorCount: real, featurePosteriorCount: real,
                                       classDomain: Option<set<X>>, featureDomains: Option<map<K, set<X>>>)
    returns (r: Result<Model<K, X>>)
    ensures r == Learned(classKey, featureKeys, dataset, classPriorCount, classDomain, featureDomains)
    ensures r.Ok? ==> Completed(featureKeys, dataset, Given(featureDomains)) == Ok(r.value.domains)
  {
    var classes: set<X>;
    if classDomain.None? {
      if !HasKey(dataset, classKey) {
        return Err(KeyError);
      }
      classes := Observed(Column(dataset, classKey));
    } else {
      classes := classDomain.value;
    }
    var domains := CompleteDomains(featureKeys, dataset, featureDomains);
    if domains.Err? {
      return Err(KeyError);
    }
    if !HasKey(dataset, classKey) {
      return Err(KeyError);
    }
    var labels := Column(dataset, classKey);
    assert classes == DomainOr(classDomain, labels);
    var prior := LearnDiscrete(labels, classPriorCount, Some(classes));
    if prior.Err? {
      return Err(ZeroDivisionError);
    }
    var conditionals := LearnConditionals(dataset, classKey, featureKeys, classes, domains.value);
    if conditionals.Err? {
      return Err(KeyError);
    }
    r := Ok(Model(prior.value, conditionals.value, domains.value));
  }

  // ---------------------------------------------------------------------
  // Properties of the learned model
  // ---------------------------------------------------------------------

  /** One table per feature key, one distribution per class, each over
      the feature's domain. */
  lemma ConditionalsShape<K, X>(dataset: seq<map<K, X>>, classKey: K, featureKeys: seq<K>, classDomain: set<X>,
                                domains: map<K, set<X>>)
    requires HasKey(dataset, classKey)
    requires forall f | f in featureKeys :: f in domains
    requires forall f, c | f in featureKeys && c in classDomain :: Covers(dataset, classKey, c, f)
    ensures var t := Conditionals(dataset, classKey, featureKeys, classDomain, domains);
            && (forall f :: f in t <==> f in featureKeys)
            && (forall f | f in t :: t[f].Keys == classDomain)
            && (forall f, c | f in t && c in classDomain :: t[f][c].Keys == domains[f])
  {
    var t: map<K, map<X, map<X, real>>> := Conditionals(dataset, classKey, featureKeys, classDomain, domains);
    forall f, c | f in t && c in classDomain
      ensures t[f][c].Keys == domains[f]
    {
      assert t[f][c] == Smoothed(Matching(dataset, classKey, c, f), domains[f]);
    }
  }

  /** The prior is over the class domain, there is one table per feature
      key, holding one distribution per class, over the feature's domain. */
  lemma LearnedShape<K, X>(classKey: K, featureKeys: seq<K>, dataset: seq<map<K, X>>, classPriorCount: real,
                           classDomain: Option<set<X>>, featureDomains: Option<map<K, set<X>>>)
    requires Learned(classKey, featureKeys, dataset, classPriorCount, classDomain, featureDomains).Ok?
    ensures HasKey(dataset, classKey)
    ensures Completed(featureKeys, dataset, Given(featureDomains)).Ok?
    ensures var m := Learned(classKey, featureKeys, dataset, classPriorCount, classDomain, featureDomains).value;
            var classes := DomainOr(classDomain, Column(dataset, classKey));
            var domains := Completed(featureKeys, dataset, Given(featureDomains)).value;
            && m.prior.Keys == classes
            && (forall f :: f in m.conditionals <==> f in featureKeys)
            && (forall f | f in m.conditionals :: m.conditionals[f].Keys == classes)
            && (forall f, c | f in m.conditionals && c in classes :: m.conditionals[f][c].Keys == domains[f])
            && m.domains == domains
  {
    var labels := Column(dataset, classKey);
    var classes := DomainOr(classDomain, labels);
    var domains := Completed(featureKeys, dataset, Given(featureDomains)).value;
    DiscreteKeys(labels, classPriorCount, classes);
    ConditionalsShape(dataset, classKey, featureKeys, classes, domains);
  }

  /** The values of `f` collected for class `c` were read from records of
      the dataset. */
  lemma {:induction false} MatchingObserved<K, X>(dataset: seq<map<K, X>>, classKey: K, c: X, f: K)
    requires HasKey(dataset, classKey) && Covers(dataset, classKey, c, f)
    ensures forall x | x in Matching(dataset, classKey, c, f) :: exists j | 0 <= j < |dataset| :: f in dataset[j] && dataset[j][f] == x
  {
    if dataset != [] {
      var n := |dataset| - 1;
      MatchingObserved(dataset[..n], classKey, c, f);
      forall x | x in Matching(dataset, classKey, c, f)
        ensures exists j | 0 <= j < |dataset| :: f in dataset[j] && dataset[j][f] == x
      {
        if x in Matching(dataset[..n], classKey, c, f) {
          var j :| 0 <= j < n && f in dataset[..n][j] && dataset[..n][j][f] == x;
          assert dataset[j] == dataset[..n][j];
        } else {
          assert f in dataset[n] && dataset[n][f] == x;
        }
      }
    }
  }

  /** One value is collected per record of class `c`: the denominator of
      each conditional is the feature's domain size plus the number of
      records of the class. */
  lemma {:induction false} MatchingLength<K, X>(dataset: seq<map<K, X>>, classKey: K, c: X, f: K)
    requires HasKey(dataset, classKey) && Covers(dataset, classKey, c, f)
    ensures |Matching(dataset, classKey, c, f)| == Count(Column(dataset, classKey), c)
  {
    if dataset != [] {
      var n := |dataset| - 1;
      MatchingLength(dataset[..n], classKey, c, f);
      var labels := Column(dataset, classKey);
      assert labels == Column(dataset[..n], classKey) + [dataset[n][classKey]];
      assert multiset(labels) == multiset(Column(dataset[..n], classKey)) + multiset{dataset[n][classKey]};
    }
  }

  /** Every value observed for `f` lies in its default domain, and that
      domain is not empty when there are records. */
  lemma ObservedColumn<K, X>(dataset: seq<map<K, X>>, f: K, j: nat)
    requires HasKey(dataset, f) && j < |dataset|
    ensures dataset[j][f] in Observed(Column(dataset, f))
  {
    assert Column(dataset, f)[j] == dataset[j][f];
  }

  /** The conditional for feature `f` and class `c`, learned with the
      observed domain, passes the validity check. */
  lemma ConditionalValid<K, X>(dataset: seq<map<K, X>>, classKey: K, c: X, f: K)
    requires dataset != [] && HasKey(dataset, classKey) && HasKey(dataset, f)
    ensures Covers(dataset, classKey, c, f)
    ensures ValidDistribution(Smoothed(Matching(dataset, classKey, c, f), Observed(Column(dataset, f))))
  {
    var ds := Matching(dataset, classKey, c, f);
    var dom := Observed(Column(dataset, f));
    MatchingObserved(dataset, classKey, c, f);
    forall i | 0 <= i < |ds|
      ensures ds[i] in dom
    {
      assert ds[i] in ds;
      var j :| 0 <= j < |dataset| && f in dataset[j] && dataset[j][f] == ds[i];
      ObservedColumn(dataset, f, j);
    }
    ObservedColumn(dataset, f, 0);
    assert |dom| >= 1;
    PositiveDenominator(|ds| as real, 1.0, |dom| as real);
    DiscreteValid(ds, 1.0, dom);
  }

  /** The default observed domain of a feature that has no given one. */
  lemma FilledAt<K, X>(keys: seq<K>, dataset: seq<map<K, X>>, f: K)
    requires Present(keys, dataset, map[]) && f in keys
    ensures f in Filled(keys, dataset, map[]) && Filled(keys, dataset, map[])[f] == Observed(Column(dataset, f))
  {
  }

  /** The table learned for feature `f` and class `c`. */
  lemma ConditionalAt<K, X>(dataset: seq<map<K, X>>, classKey: K, featureKeys: seq<K>, classDomain: set<X>,
                            domains: map<K, set<X>>, f: K, c: X)
    requires HasKey(dataset, classKey)
    requires forall g | g in featureKeys :: g in domains
    requires forall g, d | g in featureKeys && d in classDomain :: Covers(dataset, classKey, d, g)
    ensures var t := Conditionals(dataset, classKey, featureKeys, classDomain, domains);
            (f in t && c in t[f]) <==> (f in featureKeys && c in classDomain)
    ensures var t := Conditionals(dataset, classKey, featureKeys, classDomain, domains);
            f in t && c in t[f] ==> t[f][c] == Smoothed(Matching(dataset, classKey, c, f), domains[f])
  {
  }

  /** With the default domains, a non-empty dataset whose records have
      every key and a non-negative class prior count, learning succeeds:
      the prior is learned over the observed classes and the conditionals
      over the observed values of every feature. */
  lemma LearnedDefaults<K, X>(classKey: K, featureKeys: seq<K>, dataset: seq<map<K, X>>, classPriorCount: real)
    requires dataset != [] && classPriorCount >= 0.0
    requires HasKey(dataset, classKey) && forall f | f in featureKeys :: HasKey(dataset, f)
    ensures Present(featureKeys, dataset, map[])
    ensures forall f, c | f in featureKeys && c in Observed(Column(dataset, classKey)) :: Covers(dataset, classKey, c, f)
    ensures Denominator(Column(dataset, classKey), classPriorCount, Observed(Column(dataset, classKey))) > 0.0
    ensures Discrete(Column(dataset, classKey), classPriorCount, Observed(Column(dataset, classKey))).Ok?
    ensures Learned(classKey, featureKeys, dataset, classPriorCount, None, None)
         == Ok(Model(Discrete(Column(dataset, classKey), classPriorCount, Observed(Column(dataset, classKey))).value,
                     Conditionals(dataset, classKey, featureKeys, Observed(Column(dataset, classKey)), Filled(featureKeys, dataset, map[])),
                     Filled(featureKeys, dataset, map[])))
  {
    var labels := Column(dataset, classKey);
    var classes := Observed(labels);
    assert Present(featureKeys, dataset, map[]);
    PositiveDenominator(|classes| as real, classPriorCount, |dataset| as real);
  }

  /** What hw4_p2.py:132-135 asserts: with the default domains, a non-empty
      dataset whose records have every key and a non-negative class prior
      count, learning succeeds and the class prior and every conditional
      pass `valid_probability_distribution`. */
  lemma LearnedValid<K, X>(classKey: K, featureKeys: seq<K>, dataset: seq<map<K, X>>, classPriorCount: real)
    requires dataset != [] && classPriorCount >= 0.0
    requires HasKey(dataset, classKey) && forall f | f in featureKeys :: HasKey(dataset, f)
    ensures var r := Learned(classKey, featureKeys, dataset, classPriorCount, None, None);
            && r.Ok?
            && ValidDistribution(r.value.prior)
            && forall f, c | f in r.value.conditionals && c in r.value.conditionals[f] :: ValidDistribution(r.value.conditionals[f][c])
  {
    LearnedDefaults(classKey, featureKeys, dataset, classPriorCount);
    var labels := Column(dataset, classKey);
    var classes := Observed(labels);
    var domains := Filled(featureKeys, dataset, map[]);
    forall i | 0 <= i < |labels|
      ensures labels[i] in classes
    {
    }
    DiscreteValid(labels, classPriorCount, classes);
    var t := Conditionals(dataset, classKey, featureKeys, classes, domains);
    forall f, c | f in t && c in t[f]
      ensures ValidDistribution(t[f][c])
    {
      ConditionalAt(dataset, classKey, featureKeys, classes, domains, f, c);
      FilledAt(featureKeys, dataset, f);
      ConditionalValid(dataset, classKey, c, f);
    }
  }

  /** What `naive_bayes` needs of a model learned with the default domains
      from a non-empty dataset with a positive class prior count, for an
      instance whose feature values were all observed: every lookup
      succeeds, and every prior and every likelihood read is positive. */
  lemma LearnedReady<K, X>(classKey: K, featureKeys: seq<K>, dataset: seq<map<K, X>>, classPriorCount: real,
                           m: Model<K, X>, instance: map<K, X>)
    requires dataset != [] && classPriorCount > 0.0
    requires HasKey(dataset, classKey) && forall f | f in featureKeys :: HasKey(dataset, f)
    requires Learned(classKey, featureKeys, dataset, classPriorCount, None, None) == Ok(m)
    requires forall f | f in featureKeys :: f in instance && instance[f] in Observed(Column(dataset, f))
    ensures m.prior != map[]
    ensures forall c | c in m.prior :: m.prior[c] > 0.0
    ensures forall c, f | c in m.prior && f in m.conditionals ::
              c in m.conditionals[f] && f in instance && instance[f] in m.conditionals[f][c] && m.conditionals[f][c][instance[f]] > 0.0
  {
    LearnedDefaults(classKey, featureKeys, dataset, classPriorCount);
    var labels := Column(dataset, classKey);
    var classes := Observed(labels);
    var domains := Filled(featureKeys, dataset, map[]);
    DiscreteKeys(labels, classPriorCount, classes);
    ObservedColumn(dataset, classKey, 0);
    DiscretePositive(labels, classPriorCount, classes);
    forall c, f | c in m.prior && f in m.conditionals
      ensures c in m.conditionals[f] && f in instance && instance[f] in m.conditionals[f][c] && m.conditionals[f][c][instance[f]] > 0.0
    {
      ConditionalAt(dataset, classKey, featureKeys, classes, domains, f, c);
      FilledAt(featureKeys, dataset, f);
      var ds := Matching(dataset, classKey, c, f);
      DiscreteKeys(ds, 1.0, domains[f]);
      DiscretePositive(ds, 1.0, domains[f]);
    }
  }

  /** A model learned with the default domains from a non-empty dataset
      with a positive class prior count can be used by `naive_bayes` on
      any instance whose feature values were all observed: no lookup fails,
      and every class gets a positive posterior. */
  lemma LearnedPosterior<K, X>(classKey: K, featureKeys: seq<K>, dataset: seq<map<K, X>>, classPriorCount: real,
                               m: Model<K, X>, instance: map<K, X>)
    requires dataset != [] && classPriorCount > 0.0
    requires HasKey(dataset, classKey) && forall f | f in featureKeys :: HasKey(dataset, f)
    requires Learned(classKey, featureKeys, dataset, classPriorCount, None, None) == Ok(m)
    requires forall f | f in featureKeys :: f in instance && instance[f] in Observed(Column(dataset, f))
    ensures Inference.Posterior(m.prior, m.conditionals, instance).Ok?
    ensures forall c | c in m.prior :: Inference.Posterior(m.prior, m.conditionals, instance).value[c] > 0.0
  {
    LearnedReady(classKey, featureKeys, dataset, classPriorCount, m, instance);
    Inference.PosteriorPositive(m.prior, m.conditionals, instance);
  }

  /** A class that no record carries gets the uniform conditional. */
  lemma ConditionalUnseen<K, X>(dataset: seq<map<K, X>>, classKey: K, featureKeys: seq<K>, classDomain: set<X>,
                                domains: map<K, set<X>>, f: K, c: X)
    requires HasKey(dataset, classKey)
    requires forall g | g in featureKeys :: g in domains
    requires forall g, d | g in featureKeys && d in classDomain :: Covers(dataset, classKey, d, g)
    requires f in featureKeys && c in classDomain && c !in Column(dataset, classKey)
    ensures var t := Conditionals(dataset, classKey, featureKeys, classDomain, domains);
            f in t && c in t[f] && t[f][c] == Uniform(domains[f])
  {
    ConditionalAt(dataset, classKey, featureKeys, classDomain, domains, f, c);
    MatchingLength(dataset, classKey, c, f);
    assert Matching(dataset, classKey, c, f) == [];
    if domains[f] != {} {
      DiscreteNoData(1.0, domains[f]);
    } else {
      assert Uniform(domains[f]) == map[];
    }
  }

  /** A class of a given class domain that no record carries gets, for
      every feature, the uniform distribution over the feature's domain:
      only the one virtual count per value is left. */
  lemma UnseenClassUniform<K, X>(classKey: K, featureKeys: seq<K>, dataset: seq<map<K, X>>, classPriorCount: real,
                                 classDomain: set<X>, featureDomains: Option<map<K, set<X>>>, f: K, c: X)
    requires HasKey(dataset, classKey)
    requires Learned(classKey, featureKeys, dataset, classPriorCount, Some(classDomain), featureDomains).Ok?
    requires f in featureKeys && c in classDomain && c !in Column(dataset, classKey)
    ensures Completed(featureKeys, dataset, Given(featureDomains)).Ok?
    ensures var m := Learned(classKey, featureKeys, dataset, classPriorCount, Some(classDomain), featureDomains).value;
            var domains := Completed(featureKeys, dataset, Given(featureDomains)).value;
            f in m.conditionals && c in m.conditionals[f] && m.conditionals[f][c] == Uniform(domains[f])
  {
    var domains := Completed(featureKeys, dataset, Given(featureDomains)).value;
    ConditionalUnseen(dataset, classKey, featureKeys, classDomain, domains, f, c);
  }
}
