# Naive Bayes and maximum a posteriori, modelled in Dafny

This project models the core of a small Python homework repository in Dafny:

- **Probability tables** (hw4_p1.py). A table maps a tuple of variable values to a weight. The model covers:
  - marginalizing one position or several;
  - normalizing;
  - conditioning on one position;
  - Naive Bayes inference of the posterior over the classes for one instance.
- **Estimation** (hw4_p2.py). The model covers:
  - the uniform distribution and the validity test for a distribution;
  - learning a discrete distribution from data with virtual counts;
  - learning a Naive Bayes model: a class prior and one conditional distribution per feature and class.
- **Evaluation** (hw4_p3.py). The model covers `classifier_accuracy`: true and false positives and negatives of a scoring function above a threshold, then precision, recall and accuracy.
- **Basketball feature precomputation** (hw4_precompute.py). The model covers:
  - the game predicates (in the game, at home, at the opponent's, won);
  - the games of a team before a date;
  - the win/loss record;
  - the average points gained and allowed;
  - the removal of games listed twice with the sides flipped;
  - the derived fields of one feature record.

Weights are exact reals. A sum or a product over a map is a ghost function that visits the keys in no fixed order, and lemmas show that the order does not matter (`Sums`). A Python exception that the code can raise becomes an `Err` of a `Result`: `IndexError`, `KeyError` or `ZeroDivisionError`. Every loop of the modelled core functions is a method whose `ensures` ties its result to a specification function. Two loops are modelled otherwise. The `gamesbyteam` loop of the hw4_precompute.py script body is modelled by the ghost function Games.Indexed only, with no method. The loops over `statvars` in `make_features` are unrolled into the named fields of the feature record, because the one statistic averaged is the score. The lemmas beside each function state what the source promises about it.

Modules, one per file:

| file | module | models |
|---|---|---|
| results.dfy | Results | `Result`, `Option`, the exception kinds |
| sums.dfy | Sums | `sum(d.values())`, products, `defaultdict(float)` updates |
| tables.dfy | Tables | `marginalize`, `marginalize_multiple`, `normalize`, `condition` |
| inference.dfy | Inference | `naive_bayes` |
| estimation.dfy | Estimation | `uniform`, `valid_probability_distribution`, `learn_discrete` |
| learning.dfy | Learning | `learn_naive_bayes` |
| evaluation.dfy | Evaluation | `classifier_accuracy` |
| games.dfy | Games | `inGame` … `record`, duplicate removal, `make_features` |

## Model

| member | source | states |
|---|---|---|
| Sums.TotalWeight | hw4_p1.py:27 | the loop over the values computes the order-free sum of the map |
| Sums.SumRemove | hw4_p1.py:27 | any key can be taken out of the sum first: the total does not depend on the visiting order |
| Tables.Drop | hw4_p1.py:13 | `k[:i]+k[i+1:]` is one shorter when `i` is a position of the tuple; otherwise it is the tuple unchanged |
| Tables.Marginalize | hw4_p1.py:4-15 | the result is the grouping of the table by the tuple without `index`. Its keys are exactly the shortened input keys. Each weight is the sum of the weights of the input keys that collapse onto it. The total weight is preserved |
| Tables.GroupBySum | hw4_p1.py:11-15 | accumulating `res[newk] += v` over all entries preserves the total weight |
| Tables.GroupByKeys | hw4_p1.py:11-15 | the keys of the accumulated table are exactly the images of the input keys |
| Tables.GroupByAt | hw4_p1.py:12-14 | each accumulated weight is the sum of the weights of the keys mapped onto that key |
| Tables.MarginalizeMultiple | hw4_p1.py:17-22 | the total weight is always preserved. With distinct indices, removing them in descending order is the same as keeping only the other positions of every key |
| Tables.MarginalizeMultipleArity | hw4_p1.py:17-22 | with distinct in-range indices on keys of length n, every result key has length n minus the number of indices |
| Tables.Normalize | hw4_p1.py:24-28 | the result is the table divided by its total: an empty table stays empty, and a non-empty table with total 0 is a division by zero |
| Tables.NormalizedSumsToOne | hw4_p1.py:27-28 | a normalized non-empty table sums to 1 |
| Tables.NormalizedProportional | hw4_p1.py:28 | normalizing keeps the keys, and each new weight times the old total is the old weight |
| Tables.NormalizedIdempotent | hw4_p1.py:27-28 | normalizing a normalized table changes nothing |
| Tables.NormalizeFixed | hw4_p1.py:27-28 | a table that already sums to 1 is returned unchanged |
| Tables.NormalizedNonNegative | hw4_p1.py:27-28 | non-negative weights with a positive total normalize without error to non-negative weights |
| Tables.Condition | hw4_p1.py:30-42 | the result is the normalized table of the entries whose position `index` holds `value`, with that position dropped. A key too short for `index` is an `IndexError` |
| Tables.ConditionedAt | hw4_p1.py:39-42 | each matching entry reappears under its shortened key with its weight divided by the matching total, which is non-zero |
| Tables.ConditionedKeys | hw4_p1.py:38-42 | the keys are exactly the shortened matching keys, and a non-empty result sums to 1 |
| Tables.ConditionedAbsent | hw4_p1.py:38-42 | when no entry holds `value`, conditioning returns the empty table rather than an error |
| Inference.ClassScore | hw4_p1.py:59-64 | the inner loop succeeds exactly when every lookup for the class succeeds. It then returns the product of the likelihoods times the prior |
| Inference.NaiveBayes | hw4_p1.py:44-66 | the result is the normalized table of the class scores, or `KeyError` when some lookup fails |
| Inference.PosteriorDistribution | hw4_p1.py:58-66 | the posterior has exactly the classes of the prior, and for a non-empty prior it sums to 1 |
| Inference.PosteriorMissingFeature | hw4_p1.py:61 | with a non-empty prior, a feature of the conditionals that the instance lacks is a `KeyError` (with an empty prior the code looks nothing up and returns `{}`) |
| Inference.PosteriorIgnoresExtra | hw4_p1.py:60-61 | instance keys that are not features of the conditionals do not change the result |
| Inference.PosteriorNoFeatures | hw4_p1.py:58-66 | without features the posterior is the normalized prior |
| Inference.PosteriorPositive | hw4_p1.py:58-66 | positive priors and positive likelihoods give every class a positive posterior |
| Estimation.Uniform | hw4_p2.py:2-4 | the keys are exactly the domain, every value gets the same weight, and for a non-empty domain that weight is positive |
| Estimation.UniformValid | hw4_p2.py:2-4 | a non-empty domain gets weight 1/n at each of its values. The result sums to 1 and is a valid distribution |
| Estimation.IsValidDistribution | hw4_p2.py:6-9 | true exactly when no value is negative and the sum is within 1e-5 of 1 |
| Estimation.CountOf | hw4_p2.py:24-27 | the inner loop counts the occurrences of the value |
| Estimation.LearnDiscrete | hw4_p2.py:11-31 | the result is (count + virtual count) / (domain size × virtual count + data size) at each domain value. The domain defaults to the observed values. A zero denominator with a non-empty domain is a division by zero |
| Estimation.DiscreteKeys | hw4_p2.py:22-29 | the learned distribution has exactly the domain as keys |
| Estimation.CountsSum | hw4_p2.py:22-29 | the counts over the domain add up to the number of data values that lie in the domain |
| Estimation.DiscreteSumsToOne | hw4_p2.py:20-29 | with a non-zero denominator and every data value in the domain, the result sums to 1 |
| Estimation.DiscreteLosesOutside | hw4_p2.py:20-29 | a data value outside the domain still enlarges the denominator, so the result sums to less than 1 |
| Estimation.DiscretePositive | hw4_p2.py:20-29 | a positive virtual count gives every domain value a positive probability |
| Estimation.DiscreteValid | hw4_p2.py:20-29 | a non-negative virtual count, a positive denominator and data inside the domain give a valid distribution |
| Estimation.DiscreteNoData | hw4_p2.py:20-29 | without data, a positive virtual count gives the uniform distribution |
| Estimation.DiscreteFrequency | hw4_p2.py:14-29 | with virtual count 0 and the default domain, each value gets count / data size |
| Estimation.Smoothed | hw4_p2.py:95 | learning with one virtual count per value never fails |
| Learning.Column | hw4_p2.py:48 | the list comprehension reads the key from every record, in order |
| Learning.ClassSlice | hw4_p2.py:89-93 | succeeds exactly when every record of the class has the feature. It then returns that feature's values in those records, in order |
| Learning.MatchingLength | hw4_p2.py:89-93 | the collected list has one value per record of the class |
| Learning.MatchingObserved | hw4_p2.py:89-93 | every collected value was read from a record of the dataset |
| Learning.Completed | hw4_p2.py:49-54 | every feature key gets a domain. A given domain is kept, and a missing one becomes the observed values of the feature. A record lacking such a feature is a `KeyError` |
| Learning.CompleteDomains | hw4_p2.py:49-54 | the loop computes the completed feature domains |
| Learning.LearnClassInfo | hw4_p2.py:85-95 | the per-class loop succeeds exactly when every record of every class has the feature, and then learns each class's conditional |
| Learning.LearnConditionals | hw4_p2.py:83-97 | the feature loop succeeds exactly when every record of every class has every feature, and then builds all conditionals |
| Learning.LearnNaiveBayes | hw4_p2.py:33-99 | the result is the learned model, or `KeyError` or `ZeroDivisionError` in the cases the code raises them. On success the model also carries the completed feature domains that the code writes into `feature_domains` |
| Learning.ConditionalsShape | hw4_p2.py:83-97 | one table per feature key, one distribution per class, each over the feature's domain |
| Learning.LearnedShape | hw4_p2.py:52-97 | the prior is over the class domain, and the conditionals have the feature keys, the classes and the feature domains as keys. The returned domains are the completed ones |
| Learning.LearnedDefaults | hw4_p2.py:46-54 | with the default domains and a non-negative class prior count, a non-empty dataset whose records have every key learns without error. The prior is over the observed classes and the conditionals are over the observed values |
| Learning.LearnedValid | hw4_p2.py:132-135 | with the default domains the prior and every conditional pass the validity test, which is what the scenario's assertions check |
| Learning.LearnedReady | hw4_p2.py:74-97 | with a positive class prior count and an instance of observed values, every lookup of inference succeeds and every value read is positive |
| Learning.LearnedPosterior | hw4_p2.py:74-97 | such a model gives every class a positive posterior without error |
| Learning.ConditionalUnseen | hw4_p2.py:87-95 | a class that no record carries gets the uniform conditional |
| Learning.UnseenClassUniform | hw4_p2.py:87-95 | with a given class domain, a class no record carries gets the uniform distribution over each feature's domain |
| Evaluation.Classify | hw4_p3.py:97-104 | a true positive is a positive prediction with label 1, and a false positive one with label 0. A false negative is a negative prediction with label 1. Every other case is a true negative |
| Evaluation.ClassifierAccuracy | hw4_p3.py:63-116 | the loop predicts positive exactly when the score is strictly above the threshold. It returns the four counts and the three ratios, or `KeyError` for an unlabelled record, or `ZeroDivisionError` for a zero recall denominator |
| Evaluation.TallyTotal | hw4_p3.py:83-104 | the four counts add up to the number of test records |
| Evaluation.TallyPositives | hw4_p3.py:97-104 | true positives plus false negatives are the records labelled 1 |
| Evaluation.ZeroDivisionExactly | hw4_p3.py:111 | the result is a division by zero exactly when every record is labelled and none is labelled 1 |
| Evaluation.StatsBounds | hw4_p3.py:107-113 | the counts add up to the test size, and precision, recall and accuracy lie in [0, 1] |
| Evaluation.PerfectScores | hw4_p3.py:97-113 | when every prediction matches a 0/1 label, there are no false positives or false negatives, and precision, recall and accuracy are 1 |
| Evaluation.ThresholdTruePositives | hw4_p3.py:90 | raising the threshold never adds a true positive |
| Evaluation.RecallMonotone | hw4_p3.py:90-111 | raising the threshold never raises the recall |
| Evaluation.AtThresholdNegative | hw4_p3.py:90 | a score equal to the threshold counts as a negative prediction: scores at or below it give no true or false positives |
| Games.InGame | hw4_precompute.py:48-50 | a team is in a game exactly when it is the Team or the Opponent side |
| Games.AtHome | hw4_precompute.py:52-55 | the team is the Team side at "Home" or the Opponent side whose location is "Away"; a team at home is in the game |
| Games.AtOpponent | hw4_precompute.py:57-60 | the team is the Team side "Away" or the Opponent side whose location is "Home"; a team at the opponent's is in the game |
| Games.WonGame | hw4_precompute.py:62-66 | on a strictly higher Team score the Team side won, otherwise the Opponent side; a winner is in the game |
| Games.NotInGame | hw4_precompute.py:48-66 | a team not in the game is neither at home, nor at the opponent's, nor the winner |
| Games.OneWinner | hw4_precompute.py:62-66 | the Team side wins exactly when its score is higher. On a tie or a lower score the Opponent side is credited. A winner is in the game |
| Games.HomeOrAway | hw4_precompute.py:52-60 | in a game between two different teams, no team is both at home and at the opponent's |
| Games.Filter | hw4_precompute.py:70-73 | the kept games are games of the list that pass the test |
| Games.GamesBefore | hw4_precompute.py:68-74 | the result is the team's indexed games dated strictly before the date, in their order |
| Games.IndexedPlays | hw4_precompute.py:43-46 | the per-team index of games between two different teams lists exactly the games the team plays, in order |
| Games.GamesBeforeIndexed | hw4_precompute.py:68-74 | with that index, the result is exactly the team's games dated strictly before the date |
| Games.Record | hw4_precompute.py:100-104 | wins and losses are non-negative and add up to the games the team plays in |
| Games.RecordCounts | hw4_precompute.py:100-104 | wins are the games the team won, and losses the games it played and did not win |
| Games.SumPoints | hw4_precompute.py:80-85 | the accumulation loop adds up, over the games, the team's own points or its opponents' points |
| Games.AverageGained | hw4_precompute.py:76-86 | the loop's result is 0 when the team played none of the games, otherwise the mean of the team's own score |
| Games.AverageAllowed | hw4_precompute.py:88-98 | the loop's result is 0 when the team played none of the games, otherwise the mean of the opponents' score |
| Games.AverageBounds | hw4_precompute.py:76-98 | the average is 0 without games, and otherwise lies between the lowest and highest score counted |
| Games.HeadToHeadAverages | hw4_precompute.py:76-98 | over games between the same two teams, what one team allowed on average is what the other gained |
| Games.KeepFresh | hw4_precompute.py:35-38 | the inner loop keeps a game unless a kept game's opponent is its team |
| Games.KeptFirst | hw4_precompute.py:35-38 | the first game of a day is always kept |
| Games.KeptNoFlips | hw4_precompute.py:35-38 | no kept game has as its team the opponent of an earlier kept game |
| Games.KeptSubsequence | hw4_precompute.py:35-38 | the kept games are the day's games at the positions `KeptAt`, which strictly increase, so the day's order is kept |
| Games.KeptDropsOnlyFlips | hw4_precompute.py:35-38 | a game at a position not in `KeptAt` has as its team the opponent of a game kept at an earlier position |
| Games.KeptExactly | hw4_precompute.py:35-38 | the game at position j is kept if and only if no game kept at an earlier position has its team as opponent; with KeptSubsequence this determines what the loop keeps |
| Games.GroupByDate | hw4_precompute.py:32-33 | the days are exactly the dates of the games, each with its games in order |
| Games.SortDates | hw4_precompute.py:34 | the dates are listed in increasing order |
| Games.KeepByDate | hw4_precompute.py:34-40 | visiting the days in the given order appends each day's kept games and records them under the date |
| Games.RemoveDuplicates | hw4_precompute.py:28-40 | the unique games are each day's kept games, with the days ascending. The per-date map has every date and holds that day's kept games |
| Games.UniqueSorted | hw4_precompute.py:34-39 | the unique games are in non-decreasing date order |
| Games.MakeFeatures | hw4_precompute.py:106-142 | the feature record is built from the game, both teams' earlier games, their records and their averages |
| Games.FeaturesOfIndex | hw4_precompute.py:110-142 | with the per-team index, wins plus losses count each side's earlier games. `team_won` is 1 exactly when the Team side scored more, and 0 otherwise. At most one of `at_home` and `at_opp` is 1 |

## Left out

- File input and output are not modelled. This covers loading and writing the CSV files, the import-time loading in hw4_p3.py, and the script body of hw4_precompute.py. The exceptions are the duplicate removal (Games.RemoveDuplicates) and the per-team index (Games.Indexed), which are modelled. The data enter the model as parameters.
- Dates are ordered integers. `time.strptime` and `strftime` are foreign library calls, so the feature record keeps the date as that integer.
- Floating point is replaced by exact reals, so rounding and underflow of long products are not modelled. The 1e-5 tolerance stays a literal in the validity test.
- Tables.Normalize and Tables.Condition: weights are taken to be floats. The code is Python 2, so `v/vtotal` at hw4_p1.py:28 floor-divides when every weight of the table is an integer, and `condition` passes integer weights through to it. That integer division is not modelled. No call in the modelled core normalizes an all-integer table.
- Dictionary iteration order is left open. Sums and products are order-free, and results are stated as maps.
- Negative indices into tuples are not modelled, because indices are natural numbers.
- `transformToBooleanFeatures` and `betterStatThanOpponent` are not modelled. They parse CSV strings and compare strings lexicographically, and they are glue around the core.
- The drivers `learn` and `p1`, and the prints of `p2`, are not modelled.
- The 20-record spam scenario of hw4_p2.py is not evaluated record by record. What its assertions check is proved by Learning.LearnedValid under these conditions: the default domains, a non-negative class prior count, and a non-empty dataset whose records carry the class key and every feature. On an empty dataset the code's own validity test fails, because an empty distribution sums to 0.
- Learning.LearnNaiveBayes: `feature_posterior_count` is accepted and ignored, because the code always uses one virtual count for the conditionals.
- Learning.LearnNaiveBayes: the caller's `feature_domains` dictionary is not updated in place. On success, the completed domains are returned in the model's `domains` field. When the code fails after completing the dictionary, the caller still sees the completed domains; the model returns only the error.
- Estimation.Uniform and Estimation.LearnDiscrete: domains are sets. In the code a domain can be any iterable, and `len(domain)` counts repeated entries. A list domain with repeats therefore enlarges the denominator while still giving one key per distinct value. The same holds for a class domain given as a list to `learn_naive_bayes`. That case is not modelled.
- Tables.MarginalizeMultiple: with repeated indices, only the preserved total weight is stated.
- Games.GamesBefore: the code ignores its `games` argument and reads the global per-team index. The model therefore takes no `games` argument and receives the index as a parameter.
- Games.AverageGained and Games.AverageAllowed are modelled for the score only. That is the one statistic the feature builder averages.
- Games.MakeFeatures: the averages dictionaries become four named fields.
- Games.MakeFeatures: the integer `0` returned for an empty history is the real `0.0`.
- Evaluation.ClassifierAccuracy: the scoring function is a total function from a record to a real, so an exception raised inside it is not modelled.
- Evaluation.ClassifierAccuracy: the counters are natural numbers rather than floats.
