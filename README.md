# Point-cloud registration engines of cuda-slam, modelled in Dafny

This project models the CPU side of three point-cloud registration engines from cuda-slam.
Each engine is stated over exact `real` arithmetic, and the properties their code relies on are proved.

- **Common utilities and ICP** (`source/common.cpp`):
  - applying, inverting and randomly generating permutations;
  - the brute-force nearest-index search and closest-pair construction;
  - centre of mass and centring;
  - mean squared error and the ordered transform test;
  - random clouds;
  - the `do`/`while` control of the ICP loop.
- **Coherent Point Drift** (`source/coherentpointdrift.cpp`):
  - outlier-weight clamping;
  - the initial variance;
  - the exact E-step with optional truncation, including its mass balance;
  - the Fast Gauss Transform (FGT) path around the foreign FGT primitives, and the E-step dispatch;
  - the M-step's algebra around the SVD;
  - the EM loop with its three stopping conditions.
- **Non-iterative search** (`source/noniterative.cpp`):
  - the closed-form fit of one pair of clouds;
  - the sequential best-of-N search over random re-orderings, under the policies `None`, `Hybrid` (keep 5) and `Full` (keep 1);
  - the dispatch to the parallel stub;
  - the configuration defaults.

Files, one module each:

- `geometry.dfy` (`Geometry`): points, 3x3 matrices, affine transforms, sums.
- `permutations.dfy` (`Permutations`): index permutations.
- `common.dfy` (`Common`): the rest of `source/common.cpp`.
- `cpd_estep.dfy` (`CpdEStep`): the probability matrices.
- `cpd.dfy` (`CoherentPointDrift`): variance, M-step and the EM loop.
- `noniterative.dfy` (`NonIterative`): the non-iterative engine.
- `wrappers.dfy` (`Wrappers`): `Option`.

Modelling choices:

- **Arrays and accumulators.** Code that fills a buffer in place is an imperative method over `array`s. It is proved against a function of its inputs, for example `ComputePMatrix` against `ExactProbabilities`. Output arguments become out-parameters. Where the source may leave an output argument unwritten, the caller's value comes in as a parameter.
- **Foreign numerics** are function-typed parameters with only the facts the code relies on:
  - `exp` is positive;
  - the normaliser `(2 pi s)^(3/2)` is positive for positive `s`;
  - the FGT returns one non-negative value per target for non-negative weights;
  - the SVD steps return some 3×3 matrix, plus a scale numerator for the M-step;
  - `GetCorrespondingPoints` and `GetSubcloud` are folded into a scoring function `Scorer`.
- **Randomness.** `rand()` and `std::shuffle` are nondeterministic choices (`:|`). The shuffle is any sequence of swaps, so the result is proved to be some permutation.
- **IEEE special values** are modelled only where the control flow depends on them:
  - `0/0` for an empty cloud in the initial variance;
  - the relative change of the likelihood, which can be infinite or NaN;
  - both become values of `CoherentPointDrift.Extended`.
- **Float constants.** `FLT_MAX` is its exact value, `340282346638528859811704183484516925440`.
- **The non-iterative fit.** `GetSingleNonIterativeSlamResult` scores the centred clouds with a `glm::mat3`. The declared overloads of `GetMeanSquaredError` take a `glm::mat4`, so the rotation is widened with a zero translation. The model uses `Transform(R, Zero)`.

Proved behaviour worth knowing:

- `CalculateNonIterativeWithConfiguration` runs the parallel path unless the sequential policy is configured explicitly. The parallel body is commented out, so by default the result is the default-constructed pair.
- With no `MaxIterations` configured, the sequential search makes no trial at all. It then returns the default pair with error `FLT_MAX`.

## Model

| member | source | states |
|---|---|---|
| Geometry.LengthSquared | source/common.cpp:126 | a squared length is non-negative and zero exactly for the zero vector |
| Geometry.TransformPoint | source/common.cpp:27-31 | the affine image `linear * p + translation` of a point taken with `w = 1` |
| Geometry.TransformedCloud | source/common.cpp:97-102 | same length, every point mapped through the transform at the same index |
| Permutations.Permuted | source/common.cpp:104-111 | `ApplyPermutation`'s result: length of the input, entry `i` is `input[perm[i]]` |
| Permutations.ApplyPermutation | source/common.cpp:104-111 | the index-filling loop builds exactly `Permuted(input, perm)`, given `|perm| >= |input|` and in-range entries |
| Permutations.Inverse | source/common.cpp:181-190 | the inverse has the length of the permutation |
| Permutations.InversePermutation | source/common.cpp:181-190 | the scatter loop builds `Inverse(p)`; for a permutation the result is a permutation with `inv[p[i]] == i` |
| Permutations.InverseOfPermutation | source/common.cpp:181-190 | the inverse of a permutation is a permutation and a two-sided inverse |
| Permutations.ApplyThenInverseRestores | source/common.cpp:104-111 | applying `p` then its inverse (and the other way round) restores the cloud |
| Permutations.InverseIsInvolutive | source/common.cpp:181-190 | inverting twice gives back the permutation |
| Permutations.PermutationIsSurjective | source/common.cpp:181-190 | every index `0..n-1` occurs in a permutation of length `n` |
| Permutations.SwapKeepsPermutation | source/common.cpp:154 | one exchange of the shuffle keeps a permutation a permutation |
| Permutations.TestPermutation | source/common.cpp:145-148 | the recovered permutation equals the expected one entry for entry; `ClosestIndexesOfPermutedCloud` proves it holds for the nearest indexes of a permuted copy |
| Permutations.GetRandomPermutationVector | source/common.cpp:150-156 | `iota` then shuffle gives a permutation of `0..size-1`, whatever the random swaps |
| Common.CenterOfMass | source/common.cpp:113-116 | the centre times the count is the sum of the points |
| Common.AlignedCloud | source/common.cpp:200-209 | same length, each point minus the centre of mass |
| Common.AlignedCloudSumsToZero | source/common.cpp:200-209 | a centred cloud sums to the zero vector |
| Common.Residual | source/common.cpp:124-126 | a squared residual is non-negative and zero exactly when the transform maps the point exactly |
| Common.ErrorSum | source/common.cpp:120-127 | the summed residuals are non-negative and zero exactly when every point is mapped exactly |
| Common.ResidualBoundedBySum | source/common.cpp:120-127 | each residual is at most the sum |
| Common.MeanSquaredError | source/common.cpp:118-130 | the mean squared error is non-negative and zero exactly for an exact transform |
| Common.GetMeanSquaredError | source/common.cpp:118-130 | the accumulator loop computes `MeanSquaredError` |
| Common.TestTransformOrderedBoundsEveryResidual | source/common.cpp:132-137 | an accepted transform has equal cloud sizes and no residual above `N * 1e-6` |
| Common.ExactTransformPassesOrderedTest | source/common.cpp:132-137 | an exactly transformed cloud passes; clouds of different sizes always fail |
| Common.PermutedTransformPassesTest | source/common.cpp:139-143 | a cloud re-ordered by `p` and transformed passes the permuted test with `p` |
| Common.ClosestIndexIsUnique | source/common.cpp:158-179 | the closest index with first-index tie-breaking is unique |
| Common.ScanClosest | source/common.cpp:166-175 | the inner loop leaves the scan state of the closest index among `after[..size]` and changes only entry `i` |
| Common.GetClosestPointIndexes | source/common.cpp:158-179 | one valid index per point, each closest among `after[..N]`, the first one on ties |
| Common.ClosestIndexesOfPermutedCloud | source/common.cpp:158-179 | for a re-ordered copy of a cloud of distinct points, the closest indexes are the inverse permutation |
| Common.ClosestIndexOfPermutedPoint | source/common.cpp:158-179 | the closest index of one point of a re-ordered copy is its inverse-permutation index |
| Common.GetClosestPointPair | source/common.cpp:192-198 | `before` unchanged, `second[i] == after[closest[i]]` with `closest[i]` the closest index |
| Common.GetRandomFloat | source/common.cpp:12-16 | the random value lies between `min` and `max` |
| Common.FractionOfRange | source/common.cpp:14-15 | a fraction in `[0, 1]` of a range lies within the range |
| Common.GetRandomPoint | source/common.cpp:18-25 | each coordinate lies between the two corners |
| Common.GetRandomPointCloud | source/common.cpp:79-86 | `count` points (none for `count <= 0`), all inside the box |
| Common.IcpPass | source/common.cpp:271-281 | one ICP iteration from `transform`, recorded as an `IsIcpPass`: `before` moved by `transform` is paired with the points of `after` the nearest-index scan picks; `next` is `fit` of those pairs and their centres of mass; the error is the mean squared error of `next` against the closest points under `next` |
| Common.GetTransformationMatrix | source/common.cpp:262-288 | `passes` holds one `IsIcpPass` record per pass. The first starts from the identity and each later one from its predecessor's fitted transform. Every pass but the last had error above `TEST_EPS` with the count at most `maxIterations`. The result is the last pass's transform and error, and the loop stopped with error at most `TEST_EPS` or the count past the maximum; 1 to `maxIterations + 1` passes |
| Common.IcpChainExtend | source/common.cpp:269-285 | a pass that starts from the last fitted transform, after a pass that left the loop condition true, extends the recorded chain |
| Common.TestTransformOrdered | source/common.cpp:132-137 | accepts exactly clouds of equal, non-zero size whose mean squared error is at most `TEST_EPS` (for empty clouds the error is `0/0`, which fails the comparison); `TestTransformOrderedBoundsEveryResidual` and `ExactTransformPassesOrderedTest` state what acceptance means |
| Common.TestTransformWithPermutation | source/common.cpp:139-143 | the ordered test applied to `before` re-ordered by the permutation; `PermutedTransformPassesTest` states when it accepts |
| CpdEStep.NormalizingConstant | source/coherentpointdrift.cpp:90 | the mixture constant is positive for a positive normaliser, weight and `M` |
| CpdEStep.ValueVanishesExactlyWhenTruncated | source/coherentpointdrift.cpp:255-267 | a kernel entry is non-negative and zero exactly when truncated |
| CpdEStep.RowSum | source/coherentpointdrift.cpp:253-268 | the row's kernel sum is non-negative |
| CpdEStep.Denominator | source/coherentpointdrift.cpp:269 | the denominator is at least the positive constant |
| CpdEStep.Weight | source/coherentpointdrift.cpp:273-275 | a posterior weight is non-negative and zero exactly for truncated pairs |
| CpdEStep.P1Partial | source/coherentpointdrift.cpp:271-279 | accumulated `p1` entries are non-negative |
| CpdEStep.KernelValue | source/coherentpointdrift.cpp:255-267 | one kernel entry: `exp` of the exponent, or 0 when truncated |
| CpdEStep.ScanRow | source/coherentpointdrift.cpp:253-268 | the inner loop fills `p` with the row and returns its sum |
| CpdEStep.SpreadRow | source/coherentpointdrift.cpp:271-279 | the second inner loop adds the row's non-zero weights to `p1` and `px` |
| CpdEStep.SpreadIsNextRow | source/coherentpointdrift.cpp:271-279 | spreading row `x` turns the accumulators after `x` rows into those after `x + 1` |
| CpdEStep.ProcessRow | source/coherentpointdrift.cpp:250-279 | one row: returns the denominator and advances `p1` and `px` by one row |
| CpdEStep.ComputePMatrix | source/coherentpointdrift.cpp:233-285 | the nested loops compute `ExactProbabilities` |
| CpdEStep.AccumulateRows | source/coherentpointdrift.cpp:250-284 | the outer loop computes `p1`, `pt1`, `px` and the error of `ExactProbabilities` |
| CpdEStep.AccumulateRow | source/coherentpointdrift.cpp:251-280 | one outer iteration keeps the accumulator invariant from `x` rows to `x + 1` |
| CpdEStep.Pt1InUnitInterval | source/coherentpointdrift.cpp:270 | each `pt1` entry lies in `[0, 1)` |
| CpdEStep.ExactEStepMassBalance | source/coherentpointdrift.cpp:250-281 | `sum p1 == sum pt1`, `p1` non-negative, every `pt1` in `[0, 1)` |
| CpdEStep.WeightRowSumIsRatio | source/coherentpointdrift.cpp:269-279 | a row's weights sum to its kernel sum over its denominator |
| CpdEStep.SumP1EqualsSumPt1UpTo | source/coherentpointdrift.cpp:250-281 | after any number of rows the `p1` total equals the `pt1` total |
| CpdEStep.TruncatedPairContributesNothing | source/coherentpointdrift.cpp:258-261 | a truncated pair changes neither `p1`, `px` nor the denominator |
| CpdEStep.CalculatePt1 | source/coherentpointdrift.cpp:211-220 | same length, `pt1[i] == 1 - ndi * invDenomP[i]` |
| CpdEStep.InverseDenominators | source/coherentpointdrift.cpp:183-184 | `invDenomP[i] * (Kt1[i] + ndi) == 1`, all non-negative |
| CpdEStep.FgtPt1InUnitInterval | source/coherentpointdrift.cpp:180-186 | every FGT `pt1` entry lies in `[0, 1)` |
| CpdEStep.CalculateWeightsForPX | source/coherentpointdrift.cpp:222-231 | same length, coordinate `row` of each point times its inverse denominator |
| CpdEStep.WeightsForPXRebuildScaledCloud | source/coherentpointdrift.cpp:195-200 | the three coordinate weights together are each point scaled by its inverse denominator |
| CpdEStep.TruncationCount | source/coherentpointdrift.cpp:171 | `K` is at most `N` and `M`, and non-negative for a ratio above -50 |
| CpdEStep.RoundHalfAwayFromZero | source/coherentpointdrift.cpp:171 | `std::round` is within one half of its argument and non-negative for non-negative input |
| CpdEStep.FgtPt1 | source/coherentpointdrift.cpp:180-186 | the FGT `pt1` is `1 - ndi / (Kt1 + ndi)`, inside `[0, 1)` |
| CpdEStep.FgtProbabilities | source/coherentpointdrift.cpp:157-209 | one `p1`/`px` entry per moving point, one `pt1` per fixed point, `p1` non-negative, `pt1` in `[0, 1)` |
| CpdEStep.UnitWeightSums | source/coherentpointdrift.cpp:177-178 | `Kt1` has one non-negative entry per fixed point |
| CpdEStep.CalculatedPt1IsFgtPt1 | source/coherentpointdrift.cpp:183-186 | `CalculatePt1` of the inverse denominators is the FGT `pt1` |
| CpdEStep.FgtColumns | source/coherentpointdrift.cpp:194-201 | each `px` column is the FGT of the fixed cloud weighted by that coordinate |
| CpdEStep.ComputePMatrixWithFgt | source/coherentpointdrift.cpp:157-209 | the FGT path computes `FgtProbabilities` |
| CpdEStep.ComputePMatrixFast | source/coherentpointdrift.cpp:132-155 | `Full` raises the variance to at least 0.05 and uses the FGT; `Hybrid` keeps it and picks FGT above `0.015 * init`, else the exact path truncated at `1e-3`; otherwise empty probabilities |
| CoherentPointDrift.ClampWeight | source/coherentpointdrift.cpp:84-88 | the clamped weight lies strictly in `(0, 1)`, unchanged inside, `1e-6` / `1 - 1e-6` at or past the ends |
| CoherentPointDrift.ClampWeightIsIdempotent | source/coherentpointdrift.cpp:84-88 | clamping twice equals clamping once |
| CoherentPointDrift.RowPairSumVanishesExactly | source/coherentpointdrift.cpp:122-126 | a row of squared distances sums to zero exactly when every scanned point equals the fixed one |
| CoherentPointDrift.PairSumVanishesExactly | source/coherentpointdrift.cpp:120-127 | all squared pair distances sum to zero exactly when all points coincide |
| CoherentPointDrift.SigmaSquaredVanishesExactlyWhenCloudsCoincide | source/coherentpointdrift.cpp:117-130 | the initial variance is a number exactly for non-empty clouds; it is then non-negative and zero exactly when all points coincide |
| CoherentPointDrift.CalculateSigmaSquared | source/coherentpointdrift.cpp:117-130 | the nested loops compute `sum |b_i - a_j|^2 / (3 N M)` (NaN for an empty cloud) |
| CoherentPointDrift.RelativeChange | source/coherentpointdrift.cpp:104 | a finite relative change is non-negative |
| CoherentPointDrift.RelativeChangeExceedsExactly | source/coherentpointdrift.cpp:96-104 | the change exceeds the tolerance exactly when `|l' - l| > tol * |l'|`, or for `l' == 0` when `l != 0` |
| CoherentPointDrift.Continues | source/coherentpointdrift.cpp:96 | the EM loop goes on while below the iteration cap, the change exceeds the tolerance and the variance exceeds `eps`; `RelativeChangeExceedsExactly` and `UnchangedLikelihoodConverges` state when the change part holds |
| CoherentPointDrift.UnchangedLikelihoodConverges | source/coherentpointdrift.cpp:96-105 | an unchanged likelihood stops the loop for any non-negative tolerance |
| CoherentPointDrift.MStep | source/coherentpointdrift.cpp:287-341 | zero total `p1` is degenerate; the rotation is the SVD's; constant scale keeps the scale; the new variance is non-negative |
| CoherentPointDrift.MStepMapsCenterOntoCenter | source/coherentpointdrift.cpp:301-336 | the new transform maps the weighted centre of the moving cloud onto that of the fixed cloud |
| Geometry.ScaledMatrixImage | source/coherentpointdrift.cpp:336 | a scaled rotation maps a point to the scaled image |
| CoherentPointDrift.EStepOutcome | source/coherentpointdrift.cpp:98-102 | one `p1` entry per moving point and one `pt1` entry per fixed point; the variance never decreases, and only `Full` changes it |
| CoherentPointDrift.EStep | source/coherentpointdrift.cpp:98-102 | computes `EStepOutcome`: the exact E-step for `None` with the variance unchanged, `ComputePMatrixFast` otherwise; one entry per point, `p1` non-negative |
| CoherentPointDrift.GetRigidCpdTransformationMatrix | source/coherentpointdrift.cpp:64-115 | `history` and `steps` record every iteration and its M-step (`EmChain`). The first starts from `after`, the initial variance, likelihood 0 and the identity. Each later one runs on `after` moved by its predecessor's solved M-step, at that step's variance, against the likelihood its predecessor computed. The loop condition held before each. Each E-step is `EStepOutcome` (`ExactProbabilities` for `None`) and each M-step is `MStep` of its probabilities. At most `maxIterations` iterations; none means error `1e5` and the identity, with the loop condition false at the start. Otherwise the error and transform are those of the last M-step and the loop condition is false after it |
| CoherentPointDrift.Iterate | source/coherentpointdrift.cpp:98-113 | one EM iteration recorded from its inputs (cloud, variance, likelihood and transform); run from the loop's start or from where the history ended while the loop condition holds, it extends the `EmChain`; the change is the relative change of its likelihood against `l` |
| CoherentPointDrift.EmChainExtend | source/coherentpointdrift.cpp:96-113 | an iteration started as the loop starts, or from the last solved M-step while the loop condition holds, extends the chain |
| CoherentPointDrift.SigmaSquared | source/coherentpointdrift.cpp:117-130 | the initial variance `sum |b_i - a_j|^2 / (3 N M)`, `0/0` for an empty cloud; `SigmaSquaredVanishesExactlyWhenCloudsCoincide` and `CalculateSigmaSquared` state its properties |
| NonIterative.SingleSlamResult | source/noniterative.cpp:31-61 | the rotation is the SVD's for the centred clouds; the transform maps the centre of `before` onto the centre of `after`; the error is non-negative |
| NonIterative.SlamErrorVanishesExactlyOnExactFit | source/noniterative.cpp:57-59 | the approximated error is zero exactly when the fitted transform maps every point onto its partner |
| NonIterative.ImageOfDifference | source/noniterative.cpp:57 | a matrix maps a difference to the difference of the images |
| NonIterative.ScanUpTo | source/noniterative.cpp:182-192 | the running minimum starts at `FLT_MAX` and is the score of the entry that set it |
| NonIterative.ScanStopsAtFirstAccepted | source/noniterative.cpp:182-192 | the scan returns exactly when some score is at most `eps`, and then at the first such score |
| NonIterative.ScanFindsFirstMinimum | source/noniterative.cpp:182-192 | a scan that does not return ends at the least score (or `FLT_MAX`), set by the first entry with that score |
| NonIterative.ScanMinimumNeverIncreases | source/noniterative.cpp:182-185 | the running minimum never increases |
| NonIterative.ScanStaysStopped | source/noniterative.cpp:187-191 | after returning, later entries change nothing |
| NonIterative.ScanSelectsBelowMaxFloat | source/noniterative.cpp:158-159 | a transformation is selected exactly when the minimum is below `FLT_MAX` |
| NonIterative.InsertPosition | source/noniterative.cpp:194-203 | the new result goes after every result no worse than it and before the first worse one |
| NonIterative.Insert | source/noniterative.cpp:194-203 | the list with the new result at its position, everything else shifted |
| NonIterative.InsertKeepsOrder | source/noniterative.cpp:194-203 | insertion keeps the list sorted and never makes entry `i` worse |
| NonIterative.StoreResultIfOptimal | source/noniterative.cpp:194-203 | the list grows by one until it holds `k` results |
| NonIterative.StoreKeepsTopK | source/noniterative.cpp:194-203 | one call keeps a top-`k` selection top-`k` |
| NonIterative.StoreKeepsMembers | source/noniterative.cpp:194-203 | every retained result is one of the trials |
| NonIterative.StoreKeepsDropped | source/noniterative.cpp:194-203 | a trial left out is no better than the worst retained one |
| NonIterative.KeptOrDropped | source/noniterative.cpp:194-203 | an inserted entry survives the cut to `k` or is the one cut |
| NonIterative.KeepBestIsTopK | source/noniterative.cpp:194-203 | after all trials the list holds `min(trials, k)` of them, sorted, and no trial left out beats the worst one kept |
| NonIterative.RetainedCount | source/noniterative.cpp:194-203 | at least one result is kept: 5 for `Hybrid`, 1 for `Full` |
| NonIterative.TrialScores | source/noniterative.cpp:176-180 | one exact score per trial |
| NonIterative.ExactScores | source/noniterative.cpp:213-215 | the exact score of each retained result against the whole of `after` |
| NonIterative.RandomTrial | source/noniterative.cpp:169-173 | one random permutation applied to both clouds, then one fit |
| NonIterative.SelectByExactError | source/noniterative.cpp:208-228 | the second pass returns the scan of the retained results' exact scores |
| NonIterative.RecordTrial | source/noniterative.cpp:169-203 | one trial keeps the first-pass state, or stops the `None` search at the first minimum at most `eps` |
| NonIterative.GetNonIterativeTransformationMatrixSequential | source/noniterative.cpp:154-232 | at most `maxRepetitions` trials of the fit; `None` scans their exact scores with early return and records the trial index; `Hybrid`/`Full` retain the best and scan those; the error is the final minimum, at most `FLT_MAX`, with a transformation returned exactly when it is below; `repetitions` changes only on the early return of `None` |
| NonIterative.ScanReports | source/noniterative.cpp:210-231 | a completed scan reports at most `FLT_MAX` and selects a transformation exactly when it reports less |
| NonIterative.SequentialOutcomeReports | source/noniterative.cpp:154-232 | the search's error is at most `FLT_MAX`, a transformation is returned exactly below it, and `repetitions` is the caller's value or the index of a trial made |
| NonIterative.SelectionStopsAtFirstAccepted | source/noniterative.cpp:211-227 | the second pass returns the first retained result with exact score at most `eps` |
| NonIterative.ExactSearchStopsAtFirstAccepted | source/noniterative.cpp:176-192 | under `None`, if some trial scores at most `eps` the search returns the first such trial and its index |
| NonIterative.ExactSearchReturnsBestOtherwise | source/noniterative.cpp:167-231 | under `None` with no score at most `eps`: all trials are made and the least score is reported, with the first trial reaching it, or the default at `FLT_MAX` |
| NonIterative.ApproximatedSearchReturnsBestRetained | source/noniterative.cpp:194-231 | under `Hybrid`/`Full` the result is a retained top-`k` trial; its exact score is the error, at most `eps` or at most every retained score |
| NonIterative.ApproximatedSearchStopsAtFirstAccepted | source/noniterative.cpp:208-228 | under `Hybrid`/`Full`, the first retained result with exact score at most `eps` is returned |
| NonIterative.GetNonIterativeTransformationMatrixParallel | source/noniterative.cpp:62-152 | the stub returns the default pair and writes neither counter |
| NonIterative.GetNonIterativeTransformationMatrix | source/noniterative.cpp:234-240 | parallel gives the stub's result; otherwise the sequential outcome |
| NonIterative.MaxRepetitionsOf | source/noniterative.cpp:18 | the configured `MaxIterations`, or -1 when none is set |
| NonIterative.CalculateNonIterativeWithConfiguration | source/noniterative.cpp:16-29 | unless the sequential policy is configured, the default pair; otherwise the sequential outcome for `NICP_EPS`, the configured count (default -1) and zeroed counters |

## Left out

- Eigen SVD in `GetTransform`, `LeastSquaresSVD`, the M-step and the non-iterative fit: the rotation (and the M-step's scale numerator) is a function parameter. The reflection correction is not modelled.
- `GetTransform` (source/common.cpp:43-77) and `GetRandomTransformMatrix` (source/common.cpp:88-95) are not modelled. They only assemble a `glm::mat4` from an SVD result or `glm::rotate`/`glm::translate`.
- `LeastSquaresSVD` is a function parameter of the ICP loop (`fit`).
- `GetMatrix3XFromPointsVector` and the glm/Eigen conversions are representation plumbing and are not modelled.
- `LoadCloud`, `printf` and `LibraryTest` are I/O. They are left out.
- `exp`, `log`, the normaliser `(2 pi s)^(3/2)` and `ComputeFGTModel`/`ComputeFGTPredict` are function parameters. Only positivity, and for the FGT one non-negative value per target, is assumed of them.
- The likelihood is built from the abstract `log`. Nothing is proved about its value beyond how the loop uses it.
- `StoreResultIfOptimal`, `GetCorrespondingPoints` and `GetSubcloud` are not part of this model.
  - `StoreResultIfOptimal` is modelled as insertion by approximated error (a new result goes after equal ones), cut to `k`.
  - The other two, with the three-argument `GetTransformedCloud`, are folded into the scoring function `Scorer`.
- The four-argument `GetTransformedCloud` used by the EM loop is not part of this model. The loop carries the transform `(scale * R, t)` instead of the transformed cloud.
- The commented-out parallel body of `GetNonIterativeTransformationMatrixParallel` is concurrency and not live code. It is left out.
- `float` rounding and overflow are not modelled; all arithmetic is exact.
  - NaN and infinity appear only as the two cases above that change the control flow.
  - An empty cloud in the non-iterative fit (NaN centres) is excluded by the preconditions instead.
- Permutations.GetRandomPermutationVector: takes a `nat` size. The source takes an `int`, and a negative size makes the `std::vector` constructor throw; every call site passes a cloud size, which is never negative.
- Common.GetClosestPointIndexes: scans only `after[..N]` with `N = |before|`, as the source does. It therefore requires `|before| <= |after|`.
- Common.GetTransformationMatrix: requires non-empty clouds of equal size. The centre of an empty cloud is `0/0`, and the pairing reads `after[j]` for every `j < |before|`.
- CoherentPointDrift.GetRigidCpdTransformationMatrix: requires a non-negative `eps`. With a negative `eps` and coinciding clouds the initial variance is 0, the loop still runs, and the kernel multiplier `-0.5 / sigmaSquared` divides by zero; the model does not follow the `float` code into that infinity.
- NonIterative.GetNonIterativeTransformationMatrixSequential: requires equal cloud sizes. `ApplyPermutation` reads one permutation entry per input point, and the permutation has `min(N, M)` entries.
- CoherentPointDrift.MStep: a zero total `p1`, or a zero scale denominator without constant scale, is `Degenerate`. The `float` code would carry infinities or NaN into the next iteration; the model ends the loop with a NaN error. The translation and variance formulas are in the body, and only their non-negativity and the centre mapping are stated as contracts.
- CoherentPointDrift.GetRigidCpdTransformationMatrix: the mixture constant is computed only when the initial variance is a number. With an empty cloud the loop never runs.
- CpdEStep.ComputePMatrixFast: requires what the EM loop guarantees at its call: a positive constant, a weight strictly inside `(0, 1)` and non-empty clouds. The `Hybrid` FGT branch also requires a positive variance, so `sigmaSquaredInit / sigmaSquared` is defined.
