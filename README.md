# SAW car ranking engine in Dafny

This project models the ranking engine of a used-car decision-support web
application. The engine implements Simple Additive Weighting (SAW) in the PHP
class `SAWDecisionSupport`. It builds one car record per CSV data row. It
settles the criterion weights: the fixed defaults, or the user's weights divided
by their sum. Each of five criteria is normalised onto a comparable scale:

- Doors is a benefit criterion, normalised as `raw / max`.
- Engine size, mileage, owner count and price are cost criteria, normalised as
  `min / raw`.

Each car is scored by the weighted sum of its normalised criteria, and the cars
are sorted by descending score.

A cost value of 0 has two effects. That car's own norm for the criterion is 0.
When no car's value for that criterion is negative, a 0 also pulls the
criterion's min to 0. Every car's norm for that criterion then becomes 0, and
the criterion stops affecting the ranking. A missing or malformed cell reads as
0 in PHP, so one bad cell has this effect. `Normalize.ZeroCostZeroesAll` states
it.

The model takes the source's form:

- `Engine.SawDecisionSupport` is a class with the object's two fields:
  - `data` for `$data`;
  - `weights` for `$bobot`.
- Its constructor, `NormalizeData` and `CalculatePreference` are methods whose
  loops follow the PHP loops.
- Each method is proved against a specification function:
  - `Weights.NormalizeWeights`;
  - `Normalize.NormalizeAll`;
  - `Engine.Rank`, built from `Ranking.Score` and `Ranking.SortDesc`.
- `usort` on the preferences array becomes `Ranking.SortByScore`, an in-place
  insertion sort on an `array`. It is proved to produce `SortDesc` of the array
  it was given.

The properties of the engine are proved about the specification functions.

Modules and files:

- `cars.dfy` (`Cars`): rows, car records, the five criteria, `intval` as
  truncation toward zero, and the `readCSV` loop.
- `weights.dfy` (`Weights`): the default weights and the user-weight
  normaliser.
- `normalize.dfy` (`Normalize`): the min/max scan and the benefit and cost
  transforms.
- `ranking.dfy` (`Ranking`): the preference score and the stable descending
  sort.
- `engine.dfy` (`Engine`): the ranking pipeline and the class
  `SawDecisionSupport`.

PHP floats are modelled as `real`. `PHP_FLOAT_MIN` and `PHP_FLOAT_MAX` are the
decimal values PHP prints for them. They seed every max and every min, as in
the source. The user's
weights are a sequence of `(key, weight)` pairs in insertion order, as a PHP
array keeps them. A weight missing from the weights in force reads as 0. In PHP
such a missing weight is `null`, which multiplies as 0.

## Model

| member | source | states |
|---|---|---|
| Cars.CriteriaEnumerated | index.php:73-82 | the five criteria, scanned in the order of the keys of `$maxMin`, are all present, pairwise distinct, and have distinct weight keys |
| Cars.TruncateToInt | index.php:56-57 | `intval` on a number truncates toward zero: the result is the integer between 0 and x that lies within 1 of x |
| Cars.ToCar | index.php:48-59 | a row becomes a car whose text fields and float fields are copied, and whose doors and owner count are the truncated cells |
| Cars.ReadCSV | index.php:47-60 | the loop yields one car per row, in row order, each equal to `ToCar` of its row |
| Cars.ToCarNonNegative | index.php:52-58 | non-negative numeric cells give non-negative criteria; an integral doors cell survives `intval` unchanged |
| Weights.NormalizeWeights | index.php:24-35 | no user weights, or user weights whose sum is not positive, give the defaults; otherwise the weights in force have exactly the user's keys |
| Weights.Weight | index.php:116-120 | reading the weight stored under a key; a key the weights lack reads as 0, as PHP's `null` does in arithmetic (its effect on the score is stated by `Ranking.MissingWeightIgnored`) |
| Weights.Total | index.php:27 | `array_sum` of the user's weights, added in array order |
| Weights.Scaled | index.php:29-31 | what the foreach loop leaves in `$bobot`, starting from an empty array: each key in turn set to its weight divided by the total, a later key overwriting an earlier one (its keys and values are stated by `Weights.ScaledKeys` and `Weights.ScaledAt`) |
| Weights.ScaledKeys | index.php:29-31 | the foreach loop stores a weight under exactly the user's keys |
| Weights.ScaledAt | index.php:29-31 | with distinct keys, each key ends up holding its own weight divided by the total |
| Weights.SumScaled | index.php:27-31 | read back under the user's keys, the stored weights add up to the user's sum divided by the total |
| Weights.PositiveTotalNormalizes | index.php:27-31 | user weights with a positive sum keep their keys, each becomes weight / sum, and together they sum to exactly 1 |
| Weights.NormalizedWeightRange | index.php:27-31 | after normalising, a negative user weight stays negative; when all user weights are non-negative, each normalised weight lies in [0, 1] |
| Weights.TotalBoundsEach | index.php:27 | with non-negative weights, each weight lies between 0 and `array_sum` |
| Weights.DefaultWeightsSumToTen | index.php:8-14 | the defaults are all positive and sum to 10 over the five criteria: they are not normalised |
| Weights.NonPositiveFallsBack | index.php:27-34 | user weights that are all zero or negative fall back to the defaults |
| Normalize.MaxOf | index.php:73-88 | the max the scan reaches for one criterion: `PHP_FLOAT_MIN` folded with `max` over the cars in order (its bounds are stated by `Normalize.ScanBounds` and `Normalize.ScanAttained`) |
| Normalize.MinOf | index.php:73-88 | the min the scan reaches for one criterion: `PHP_FLOAT_MAX` folded with `min` over the cars in order (its bounds are stated by `Normalize.ScanBounds` and `Normalize.ScanAttained`) |
| Normalize.MinOfAtLeast | index.php:86 | a value that every car reaches and that does not exceed the seed is a lower bound of the min |
| Normalize.MaxOfAtMost | index.php:85 | a value that no car exceeds and that is not below the seed is an upper bound of the max |
| Normalize.Spans | index.php:73-88 | the scan leaves a max and a min for every one of the five criteria |
| Normalize.ScanBounds | index.php:83-88 | after the scan, every car's value lies between the criterion's min and max; the max is at least `PHP_FLOAT_MIN` and the min at most `PHP_FLOAT_MAX` |
| Normalize.ScanAttained | index.php:83-88 | on non-empty data of finite values, the min is some car's value, and the max is some car's value unless it is still the seed `PHP_FLOAT_MIN` |
| Normalize.MinNonNegative | index.php:86 | non-negative values give a non-negative min |
| Normalize.BenefitNorm | index.php:95 | the Doors transform: with a positive max the result times the max gives back the value; otherwise the result is 0 |
| Normalize.CostNorm | index.php:98-101 | the cost transform: with a positive value the result times the value gives back the min; otherwise the result is 0 |
| Normalize.BenefitNormProperties | index.php:95 | the benefit transform gives 0 for a zero value or a non-positive max, exactly 1 at the max, a value in [0, 1] between 0 and the max, a positive value for positive inputs, and it never decreases as the value grows |
| Normalize.CostNormProperties | index.php:98-101 | the cost transform gives 0 for a zero value, exactly 1 at a positive min, a value in [0, 1] from the min up, a positive value for positive inputs, and it never increases as a positive value grows |
| Normalize.ZeroCostIsWorst | index.php:98-101 | a cost value of 0 normalises below every positive value at or above a positive min |
| Normalize.ZeroCostZeroesAll | index.php:83-101 | over non-negative data, one car with a cost value of 0 pulls that criterion's min to 0, so every car's norm for it is 0 |
| Normalize.CostStep | index.php:98-101 | when one value drops from v to a positive v' and the min moves to anything between Min(min, v') and v', the norm at v' is at least the norm at v |
| Normalize.BenefitStep | index.php:95 | when one value rises from v to v' and the max moves to anything between v' and Max(max, v'), the norm at v' is at least the norm at v |
| Normalize.CostMonotoneInData | index.php:83-101 | over the whole data, with the other cars' values fixed and non-negative, lowering one car's cost value to a positive value never lowers its norm, although the min moves with it |
| Normalize.BenefitMonotoneInData | index.php:83-95 | over the whole data, with the other cars' values fixed, raising one car's non-negative Doors value never lowers its norm, although the max moves with it |
| Normalize.NormalizeCar | index.php:91-104 | a normalised car keeps its original record, and each of its five norms is the benefit or the cost transform of that criterion |
| Normalize.NormalizeAll | index.php:91-106 | normalising yields one entry per car, in order, each carrying its car |
| Normalize.NormalizedRange | index.php:73-104 | over non-negative data, every norm lies in [0, 1]; a zero value gives 0; the best value (the max of Doors, a positive min of a cost criterion) gives exactly 1 |
| Ranking.Score | index.php:115-120 | the preference: the five products of norm and weight, added in the source's order, unclamped (its meaning is stated by `Ranking.ScoreByCriterion`, `Ranking.ScoreBounds`, `Ranking.MissingWeightIgnored` and `Ranking.ScoreMonotone`) |
| Ranking.ScoreByCriterion | index.php:115-120 | the score is the sum over the five criteria of norm times the weight stored under the criterion's key |
| Ranking.ScoreBounds | index.php:115-120 | norms in [0, 1] and non-negative weights give a score between 0 and the sum of the five weights |
| Ranking.MissingWeightIgnored | index.php:115-120 | a criterion whose key has no weight does not influence the score |
| Ranking.ScoreMonotone | index.php:115-120 | with non-negative weights, a car at least as good on every norm scores at least as high |
| Ranking.ScoreAll | index.php:114-126 | there is one scored entry per normalised car, in order, each carrying its car |
| Ranking.Insert | index.php:129-131 | one step of a stable descending insertion: the new entry goes after every entry, scanning from the back, whose score is at least its own (stated by `Ranking.InsertPermutes`, `Ranking.InsertSorted` and `Ranking.InsertKeepsOrderOfEquals`) |
| Ranking.SortDesc | index.php:129-131 | `usort` with the comparator `$b <=> $a`, as a stable insertion sort by descending score (stated by `Ranking.SortDescSortsAndPermutes`, `Ranking.SortDescStable` and `Ranking.StableSortIsSortDesc`) |
| Ranking.InsertPermutes | index.php:129-131 | one insertion step adds exactly the inserted entry |
| Ranking.InsertSorted | index.php:129-131 | one insertion step keeps a descending sequence descending |
| Ranking.InsertKeepsOrderOfEquals | index.php:129-131 | one insertion step puts the new entry after every entry with the same score |
| Ranking.SortDescSortsAndPermutes | index.php:129-131 | sorting keeps the length and the multiset of entries, and leaves the scores in descending order |
| Ranking.SortDescStable | index.php:129-131 | for every score value, the entries with that score keep their input order |
| Ranking.SortedStableUnique | index.php:129-131 | two descending sequences with the same entries, in the same order, for every score are equal |
| Ranking.StableSortIsSortDesc | index.php:129-131 | any stable descending sort of the entries gives exactly `SortDesc` |
| Ranking.SortByScore | index.php:129-131 | sorting the array in place leaves `SortDesc` of its old contents |
| Ranking.InsertInPlace | index.php:129-131 | the in-place step turns the array's first i+1 cells into the insertion of the i-th cell into the sorted prefix, leaving later cells unchanged |
| Engine.Rank | index.php:109-134 | `calculatePreference` as a value: every car normalised, scored against the weights and sorted by descending score (its properties are stated by `Engine.RankProperties`) |
| Engine.RankProperties | index.php:109-134 | the ranking has one entry per car; no cars give an empty ranking; each entry is a car paired with its own score; the entries are a permutation of the scored cars; scores never increase; equal scores keep input order |
| Engine.RankScoresBounded | index.php:114-126 | with non-negative data and weights, every ranked score lies between 0 and the sum of the five weights |
| Engine.TwoCarScenario | index.php:109-134 | under the default weights, a 2.0 L, 50000 km, 4-door, one-owner, 20000 car and a 1.5 L, 30000 km, 2-door, one-owner, 15000 car score 7.95 and 9.5, so the second ranks first |
| Engine.TwoCarNorms | index.php:73-104 | the two cars above normalise to (0.75, 0.6, 1, 1, 0.75) and (1, 1, 0.5, 1, 1) |
| Engine.ScanMinMax | index.php:73-88 | the nested scan loops leave exactly `Spans(data)`: for each criterion, the max starts at `PHP_FLOAT_MIN` and the min at `PHP_FLOAT_MAX`, and both are folded over all cars (so with every Doors value 0 or below, the max stays at the seed) |
| Engine.UpdateSpans | index.php:84-87 | the inner loop takes one car's value into each criterion's max and min |
| Engine.SawDecisionSupport.constructor | index.php:18-36 | the object holds one car per row, in order, and the weights `NormalizeWeights` gives for the user's weights |
| Engine.SawDecisionSupport.NormalizeData | index.php:68-107 | the method returns every car normalised against the spans of the whole data |
| Engine.SawDecisionSupport.CalculatePreference | index.php:109-134 | the method returns `Rank` of the data under the weights in force: one entry per car, a permutation of the scored cars, in non-increasing score order |

## Left out

- Reading the file (`fopen`, `fgetcsv`, skipping the header, `fclose`) is left
  out: the rows arrive as a sequence.
- String-to-number conversion by `floatval` and `intval` is left out: numeric
  cells arrive as numbers. Missing or malformed cells, which PHP reads as 0, are
  therefore not modelled.
- The web front end is not part of this model:
  - form handling, the session and file upload;
  - validation of the weights entered on the form;
  - the HTML and JavaScript views;
  - pagination.
- IEEE-754 rounding is left out: all arithmetic is exact on `real`. The scores
  of the two-car scenario are exact rationals.
- The PHP warning "Undefined array key", raised when a weight that `$bobot` lacks
  is read, is left out. Only the value read is modelled: `null`, which counts
  as 0.
- Cars.TruncateToInt: PHP's 64-bit integer range is not modelled. `intval`
  saturates at `PHP_INT_MAX` (9223372036854775807) and `PHP_INT_MIN`. The model's
  doors and owner count are unbounded integers, so a huge cell keeps its
  truncated value. No property of the engine depends on this.
- Ranking.SortByScore: `usort` is modelled as a stable insertion sort.
  `Ranking.StableSortIsSortDesc` shows that every stable descending sort gives
  the same result. The model does not cover PHP's own sorting algorithm or the
  order it gave to equal scores before PHP 8.0, when `usort` was not stable.
- Normalize.CostMonotoneInData: monotonicity is stated only for a lowered
  value that stays positive. For a cost criterion lower should be better, so
  lowering a value should never lower its norm. The code does not meet that: at
  raw value 0 the norm is 0, below every positive value
  (`Normalize.ZeroCostIsWorst`). The model follows the code.
- Weights.PositiveTotalNormalizes: the "sums to 1" and per-key statements
  require distinct keys, which a PHP array always has. For a sequence with
  repeated keys, the loop's later entries overwrite earlier ones, as
  `Weights.Scaled` models, and no sum is claimed.
