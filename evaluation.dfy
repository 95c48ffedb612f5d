/** Accuracy statistics of a probabilistic classifier on a labelled test
    set (`classifier_accuracy`, hw4_p3.py:63-116).  An instance is predicted
    positive when the classifier's value is strictly above the threshold;
    its actual label is the integer stored under the target key. */
module Evaluation {
  import opened Results
  import opened Sums

  /** The branch of hw4_p3.py:96-103 an instance falls into. */
  datatype Outcome = TruePositive | FalsePositive | FalseNegative | TrueNegative

  /** The four branches in their order: a predicted positive is a true
      positive with label 1 and a false positive with label 0; a predicted
      negative with label 1 is a false negative; everything else, including
      a predicted positive whose label is neither 0 nor 1, is counted as a
      true negative. */
  function Classify(predicted: bool, actual: int): (o: Outcome)
    ensures o == TruePositive <==> predicted && actual == 1
    ensures o == FalsePositive <==> predicted && actual == 0
    ensures o == FalseNegative <==> !predicted && actual == 1
  {
    if predicted && actual == 1 then TruePositive
    else if predicted && actual == 0 then FalsePositive
    else if !predicted && actual == 1 then FalseNegative
    else TrueNegative
  }

  /** The four counters `num_tp`, `num_fp`, `num_tn`, `num_fn`. */
  datatype Tally = Tally(tp: nat, fp: nat, tn: nat, fn: nat)

  function Add(t: Tally, o: Outcome): Tally
  {
    match o
    case TruePositive => t.(tp := t.tp + 1)
    case FalsePositive => t.(fp := t.fp + 1)
    case FalseNegative => t.(fn := t.fn + 1)
    case TrueNegative => t.(tn := t.tn + 1)
  }

  /** Every instance has the target key. */
  predicate Labelled<K>(testset: seq<map<K, int>>, target: K)
  {
    forall i | 0 <= i < |testset| :: target in testset[i]
  }

  /** The counters after the instances of `testset`, in order. */
  ghost function Tallied<K>(classifier: map<K, int> -> real, threshold: real, testset: seq<map<K, int>>, target: K): Tally
    requires Labelled(testset, target)
  {
    if testset == [] then Tally(0, 0, 0, 0)
    else
      var n := |testset| - 1;
      var item := testset[n];
      Add(Tallied(classifier, threshold, testset[..n], target), Classify(classifier(item) > threshold, item[target]))
  }

  /** The dictionary `classifier_accuracy` returns. */
  datatype Stats = Stats(tp: nat, fp: nat, tn: nat, fn: nat, precision: real, recall: real, accuracy: real)

  /** What `classifier_accuracy` returns: `KeyError` for an instance without
      the target; `ZeroDivisionError` from the recall when no instance is
      labelled 1 (the empty test set among them, so that the accuracy's
      division by the test set's size never fails); otherwise the counters,
      the precision (0 without true positives), the recall and the
      accuracy. */
  ghost function Evaluated<K>(classifier: map<K, int> -> real, threshold: real, testset: seq<map<K, int>>, target: K): Result<Stats>
  {
    if !Labelled(testset, target) then Err(KeyError)
    else
      var t := Tallied(classifier, threshold, testset, target);
      if t.tp + t.fn == 0 then Err(ZeroDivisionError)
      else
        TallyTotal(classifier, threshold, testset, target);
        var precision := if t.tp != 0 then t.tp as real / (t.tp + t.fp) as real else 0.0;
        Ok(Stats(t.tp, t.fp, t.tn, t.fn, precision, t.tp as real / (t.tp + t.fn) as real,
                 (t.tp + t.tn) as real / |testset| as real))
  }

  /** Counts the four outcomes over the test set and computes the rates. */
  method ClassifierAccuracy<K>(classifier: map<K, int> -> real, threshold: real, testset: seq<map<K, int>>, target: K)
    returns (r: Result<Stats>)
    ensures r == Evaluated(classifier, threshold, testset, target)
  {
    var n := |testset|;
    var tally := Tally(0, 0, 0, 0);
    var j := 0;
    while j < n
      invariant 0 <= j <= n
      invariant Labelled(testset[..j], target)
      invariant tally == Tallied(classifier, threshold, testset[..j], target)
    {
      var item := testset[j];
      var predictPos := classifier(item) > threshold;
      if target !in item {
        assert !Labelled(testset, target);
        return Err(KeyError);
      }
      var actuallyPos := item[target];
      assert testset[..j + 1][..j] == testset[..j];
      if predictPos && actuallyPos == 1 {
        tally := tally.(tp := tally.tp + 1);
      } else if predictPos && actuallyPos == 0 {
        tally := tally.(fp := tally.fp + 1);
      } else if !predictPos && actuallyPos == 1 {
        tally := tally.(fn := tally.fn + 1);
      } else {
        tally := tally.(tn := tally.tn + 1);
      }
      j := j + 1;
    }
    assert testset[..j] == testset;
    var precision := 0.0;
    if tally.tp != 0 {
      precision := tally.tp as real / (tally.tp + tally.fp) as real;
    }
    if tally.tp + tally.fn == 0 {
      return Err(ZeroDivisionError);
    }
    var recall := tally.tp as real / (tally.tp + tally.fn) as real;
    TallyTotal(classifier, threshold, testset, target);
    var accuracy := (tally.tp + tally.tn) as real / n as real;
    r := Ok(Stats(tally.tp, tally.fp, tally.tn, tally.fn, precision, recall, accuracy));
  }

  /** The number of instances labelled 1. */
  ghost function Positives<K>(testset: seq<map<K, int>>, target: K): nat
    requires Labelled(testset, target)
  {
    if testset == [] then 0
    else
      var n := |testset| - 1;
      Positives(testset[..n], target) + (if testset[n][target] == 1 then 1 else 0)
  }

  /** Every instance lands in exactly one counter. */
  lemma {:induction false} TallyTotal<K>(classifier: map<K, int> -> real, threshold: real, testset: seq<map<K, int>>, target: K)
    requires Labelled(testset, target)
    ensures var t := Tallied(classifier, threshold, testset, target);
      t.tp + t.fp + t.tn + t.fn == |testset|
  {
    if testset != [] {
      TallyTotal(classifier, threshold, testset[..|testset| - 1], target);
    }
  }

  /** The true positives and false negatives are exactly the instances
      labelled 1, whatever the classifier and the threshold. */
  lemma {:induction false} TallyPositives<K>(classifier: map<K, int> -> real, threshold: real, testset: seq<map<K, int>>, target: K)
    requires Labelled(testset, target)
    ensures var t := Tallied(classifier, threshold, testset, target);
      t.tp + t.fn == Positives(testset, target)
  {
    if testset != [] {
      TallyPositives(classifier, threshold, testset[..|testset| - 1], target);
    }
  }

  lemma PositivesBound<K>(testset: seq<map<K, int>>, target: K)
    requires Labelled(testset, target)
    ensures Positives(testset, target) <= |testset|
  {
  }

  /** `classifier_accuracy` fails with `ZeroDivisionError` exactly when the
      instances all carry the target and none of them is labelled 1. */
  lemma ZeroDivisionExactly<K>(classifier: map<K, int> -> real, threshold: real, testset: seq<map<K, int>>, target: K)
    ensures Evaluated(classifier, threshold, testset, target) == Err(ZeroDivisionError)
        <==> Labelled(testset, target) && Positives(testset, target) == 0
  {
    if Labelled(testset, target) {
      TallyPositives(classifier, threshold, testset, target);
      PositivesBound(testset, target);
    }
  }

  lemma RatioInUnit(x: nat, y: nat)
    requires 0 < x + y
    ensures 0.0 <= x as real / (x + y) as real <= 1.0
  {
  }

  /** On success the counters add up to the test set's size and the
      precision, the recall and the accuracy are fractions between 0 and 1. */
  lemma StatsBounds<K>(classifier: map<K, int> -> real, threshold: real, testset: seq<map<K, int>>, target: K)
    requires Evaluated(classifier, threshold, testset, target).Ok?
    ensures var s := Evaluated(classifier, threshold, testset, target).value;
      && s.tp + s.fp + s.tn + s.fn == |testset|
      && 0.0 <= s.precision <= 1.0
      && 0.0 <= s.recall <= 1.0
      && 0.0 <= s.accuracy <= 1.0
  {
    var t := Tallied(classifier, threshold, testset, target);
    TallyTotal(classifier, threshold, testset, target);
    if t.tp != 0 {
      RatioInUnit(t.tp, t.fp);
    }
    RatioInUnit(t.tp, t.fn);
    RatioInUnit(t.tp + t.tn, t.fp + t.fn);
  }

  /** A classifier that is above the threshold exactly on the instances
      labelled 1, all labels being 0 or 1. */
  ghost predicate Perfect<K>(classifier: map<K, int> -> real, threshold: real, testset: seq<map<K, int>>, target: K)
    requires Labelled(testset, target)
  {
    forall i | 0 <= i < |testset| ::
      && (testset[i][target] == 0 || testset[i][target] == 1)
      && (classifier(testset[i]) > threshold <==> testset[i][target] == 1)
  }

  lemma {:induction false} PerfectTally<K>(classifier: map<K, int> -> real, threshold: real, testset: seq<map<K, int>>, target: K)
    requires Labelled(testset, target)
    requires Perfect(classifier, threshold, testset, target)
    ensures var p := Positives(testset, target);
      p <= |testset| &&
      Tallied(classifier, threshold, testset, target) == Tally(p, 0, |testset| - p, 0)
  {
    if testset != [] {
      var n := |testset| - 1;
      assert Perfect(classifier, threshold, testset[..n], target) by {
        forall i | 0 <= i < n
          ensures testset[..n][i] == testset[i]
        {
        }
      }
      PerfectTally(classifier, threshold, testset[..n], target);
    }
  }

  /** A perfect classifier on a test set with some instance labelled 1 has
      no false positive, no false negative and a precision, recall and
      accuracy of 1. */
  lemma PerfectScores<K>(classifier: map<K, int> -> real, threshold: real, testset: seq<map<K, int>>, target: K)
    requires Labelled(testset, target)
    requires Perfect(classifier, threshold, testset, target)
    requires Positives(testset, target) > 0
    ensures var p := Positives(testset, target);
      && p <= |testset|
      && Evaluated(classifier, threshold, testset, target)
        == Ok(Stats(p, 0, |testset| - p, 0, 1.0, 1.0, 1.0))
  {
    PerfectTally(classifier, threshold, testset, target);
    var p := Positives(testset, target);
    DivideSelf(p as real);
    DivideSelf(|testset| as real);
  }

  /** Raising the threshold can only turn true positives into false
      negatives, never the reverse. */
  lemma {:induction false} ThresholdTruePositives<K>(classifier: map<K, int> -> real, low: real, high: real, testset: seq<map<K, int>>, target: K)
    requires Labelled(testset, target)
    requires low <= high
    ensures Tallied(classifier, high, testset, target).tp <= Tallied(classifier, low, testset, target).tp
  {
    if testset != [] {
      ThresholdTruePositives(classifier, low, high, testset[..|testset| - 1], target);
    }
  }

  lemma RatioMonotone(x: nat, y: nat, d: nat)
    requires x <= y && 0 < d
    ensures x as real / d as real <= y as real / d as real
  {
  }

  /** The recall never increases as the threshold rises. */
  lemma RecallMonotone<K>(classifier: map<K, int> -> real, low: real, high: real, testset: seq<map<K, int>>, target: K)
    requires low <= high
    requires Evaluated(classifier, low, testset, target).Ok?
    ensures Evaluated(classifier, high, testset, target).Ok?
    ensures Evaluated(classifier, high, testset, target).value.recall
         <= Evaluated(classifier, low, testset, target).value.recall
  {
    TallyPositives(classifier, low, testset, target);
    TallyPositives(classifier, high, testset, target);
    ThresholdTruePositives(classifier, low, high, testset, target);
    var p := Positives(testset, target);
    RatioMonotone(Tallied(classifier, high, testset, target).tp, Tallied(classifier, low, testset, target).tp, p);
  }

  /** A score equal to the threshold is a negative prediction: on a test
      set scored at or below the threshold there is no true and no false
      positive. */
  lemma {:induction false} AtThresholdNegative<K>(classifier: map<K, int> -> real, threshold: real, testset: seq<map<K, int>>, target: K)
    requires Labelled(testset, target)
    requires forall i | 0 <= i < |testset| :: classifier(testset[i]) <= threshold
    ensures Tallied(classifier, threshold, testset, target).tp == 0
    ensures Tallied(classifier, threshold, testset, target).fp == 0
  {
    if testset != [] {
      var n := |testset| - 1;
      assert forall i | 0 <= i < n :: testset[..n][i] == testset[i];
      AtThresholdNegative(classifier, threshold, testset[..n], target);
    }
  }
}
