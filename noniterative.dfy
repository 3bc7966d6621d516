/** The non-iterative registration engine (source/noniterative.cpp): one closed-form fit of
    a pair of clouds (`GetSingleNonIterativeSlamResult`), the best-of-N search over random
    re-orderings (`GetNonIterativeTransformationMatrixSequential`), the dispatch between the
    sequential search and the parallel stub, and the configuration defaults. */
module NonIterative {
  import opened Geometry
  import opened Permutations
  import opened Common
  import Wrappers

  /** `NICP_EPS`. */
  const NicpEps: real := 0.00001

  /** `ApproximationType`: score every trial exactly (`None`), keep the best 5 by the
      approximated error and score those (`Hybrid`), or keep only the best one (`Full`). */
  datatype ApproximationType = None | Hybrid | Full

  datatype ExecutionPolicy = Sequential | Parallel

  /** The fields of `Configuration` the engine reads. */
  datatype Configuration = Configuration(maxIterations: Wrappers.Option<int>,
                                         executionPolicy: Wrappers.Option<ExecutionPolicy>,
                                         approximationType: ApproximationType)

  /** A `std::pair<glm::mat3, glm::vec3>`, or `None` for a default-constructed pair that was
      never assigned. */
  type Transformation = Wrappers.Option<Transform>

  // ---------------------------------------------------------------------------
  // One closed-form fit

  /** `NonIterativeSlamResult`: rotation, translation and the approximated error. */
  datatype SlamResult = SlamResult(rotation: Mat3, translation: Point, approximatedError: real)

  function TransformOf(r: SlamResult): Transform {
    Transform(r.rotation, r.translation)
  }

  /** `GetSingleNonIterativeSlamResult`. Both clouds are centred on their centres of mass;
      `rotationOf(alignedBefore, alignedAfter)` stands for the two SVDs and the product
      `U_after U_before^T`. The translation is `centerAfter - R centerBefore` and the
      approximated error is the mean squared error of the centred clouds under `R`. */
  function SingleSlamResult(before: seq<Point>, after: seq<Point>,
                            rotationOf: (seq<Point>, seq<Point>) -> Mat3): (r: SlamResult)
    requires 0 < |before| <= |after|
    ensures r.rotation == rotationOf(AlignedCloud(before), AlignedCloud(after))
    ensures TransformPoint(TransformOf(r), CenterOfMass(before)) == CenterOfMass(after)
    ensures r.approximatedError >= 0.0
  {
    var centerBefore := CenterOfMass(before);
    var centerAfter := CenterOfMass(after);
    var alignedBefore := AlignedCloud(before);
    var alignedAfter := AlignedCloud(after);
    var rotation := rotationOf(alignedBefore, alignedAfter);
    var translation := Sub(centerAfter, MulVec(rotation, centerBefore));
    SlamResult(rotation, translation, MeanSquaredError(alignedBefore, alignedAfter, Transform(rotation, Zero)))
  }

  lemma DotOfDifference(r: Point, a: Point, b: Point)
    ensures Dot(r, Sub(a, b)) == Dot(r, a) - Dot(r, b)
  {
    assert Mul(r.x, a.x - b.x) == Mul(r.x, a.x) - Mul(r.x, b.x);
    assert Mul(r.y, a.y - b.y) == Mul(r.y, a.y) - Mul(r.y, b.y);
    assert Mul(r.z, a.z - b.z) == Mul(r.z, a.z) - Mul(r.z, b.z);
  }

  lemma ImageOfDifference(m: Mat3, a: Point, b: Point)
    ensures MulVec(m, Sub(a, b)) == Sub(MulVec(m, a), MulVec(m, b))
  {
    DotOfDifference(m.r0, a, b);
    DotOfDifference(m.r1, a, b);
    DotOfDifference(m.r2, a, b);
  }

  /** For clouds of equal size, the approximated error is zero exactly when the fitted
      transform maps every point of `before` onto the point of `after` at the same index. */
  lemma SlamErrorVanishesExactlyOnExactFit(before: seq<Point>, after: seq<Point>,
                                           rotationOf: (seq<Point>, seq<Point>) -> Mat3)
    requires 0 < |before| == |after|
    ensures var r := SingleSlamResult(before, after, rotationOf);
      r.approximatedError == 0.0 <==>
      forall i | 0 <= i < |before| :: after[i] == TransformPoint(TransformOf(r), before[i])
  {
    var r := SingleSlamResult(before, after, rotationOf);
    var centerBefore := CenterOfMass(before);
    var centerAfter := CenterOfMass(after);
    var alignedBefore := AlignedCloud(before);
    var alignedAfter := AlignedCloud(after);
    forall i | 0 <= i < |before|
      ensures alignedAfter[i] == TransformPoint(Transform(r.rotation, Zero), alignedBefore[i])
          <==> after[i] == TransformPoint(TransformOf(r), before[i])
    {
      assert alignedBefore[i] == Sub(before[i], centerBefore);
      assert alignedAfter[i] == Sub(after[i], centerAfter);
      ImageOfDifference(r.rotation, before[i], centerBefore);
    }
  }

  // ---------------------------------------------------------------------------
  // Running minimum with early exit

  /** The state of a scan of scores: the least score so far (`FLT_MAX` initially) and the
      index of the entry that set it (-1 while none has). */
  datatype Pick = Pick(minError: real, index: int)

  /** The scan has returned: an entry set the minimum and it is at most `eps`. */
  predicate Stopped(p: Pick, eps: real) {
    p.index >= 0 && p.minError <= eps
  }

  /** The scan over the first `n` scores: a score strictly below the minimum replaces it, and
      the scan returns as soon as the new minimum is at most `eps`. */
  function ScanUpTo(scores: seq<real>, n: nat, eps: real): (p: Pick)
    requires n <= |scores|
    ensures -1 <= p.index < n
    ensures p.index >= 0 ==> p.minError == scores[p.index]
    ensures p.index < 0 ==> p.minError == MaxFloat
  {
    if n == 0 then Pick(MaxFloat, -1)
    else
      var previous := ScanUpTo(scores, n - 1, eps);
      if Stopped(previous, eps) then previous
      else if scores[n - 1] < previous.minError then Pick(scores[n - 1], n - 1)
      else previous
  }

  /** With `eps` below `FLT_MAX`, the scan returns exactly when some score is at most `eps`,
      and then at the first such score. */
  lemma {:induction false} ScanStopsAtFirstAccepted(scores: seq<real>, n: nat, eps: real)
    requires n <= |scores| && eps < MaxFloat
    ensures Stopped(ScanUpTo(scores, n, eps), eps) <==> exists i | 0 <= i < n :: scores[i] <= eps
    ensures Stopped(ScanUpTo(scores, n, eps), eps) ==>
      forall j | 0 <= j < ScanUpTo(scores, n, eps).index :: scores[j] > eps
  {
    if n > 0 {
      ScanStopsAtFirstAccepted(scores, n - 1, eps);
      var previous := ScanUpTo(scores, n - 1, eps);
      if !Stopped(previous, eps) {
        assert previous.minError > eps;
      }
    }
  }

  /** When the scan does not return, its minimum is at most every score and `FLT_MAX`, and
      it comes from the first score equal to it. */
  lemma {:induction false} ScanFindsFirstMinimum(scores: seq<real>, n: nat, eps: real)
    requires n <= |scores|
    requires !Stopped(ScanUpTo(scores, n, eps), eps)
    ensures var p := ScanUpTo(scores, n, eps);
      && p.minError <= MaxFloat
      && (forall i | 0 <= i < n :: p.minError <= scores[i])
      && (forall j | 0 <= j < p.index :: scores[j] > p.minError)
  {
    if n > 0 {
      var previous := ScanUpTo(scores, n - 1, eps);
      if !Stopped(previous, eps) {
        ScanFindsFirstMinimum(scores, n - 1, eps);
      }
    }
  }

  // ---------------------------------------------------------------------------
  // Bounded best-K retention

  predicate SortedByApproximation(best: seq<SlamResult>) {
    forall i, j | 0 <= i < j < |best| :: best[i].approximatedError <= best[j].approximatedError
  }

  /** Where a new result goes: before the first kept result with a strictly larger
      approximated error. */
  function InsertPosition(best: seq<SlamResult>, r: SlamResult): (pos: nat)
    ensures pos <= |best|
    ensures forall i | 0 <= i < pos :: best[i].approximatedError <= r.approximatedError
    ensures pos < |best| ==> best[pos].approximatedError > r.approximatedError
  {
    if |best| == 0 || best[0].approximatedError > r.approximatedError then 0
    else 1 + InsertPosition(best[1..], r)
  }

  /** The kept list with `r` placed at its `InsertPosition`. */
  function Insert(best: seq<SlamResult>, r: SlamResult): (s: seq<SlamResult>)
    ensures |s| == |best| + 1
    ensures forall i | 0 <= i < |s| ::
      s[i] == if i < InsertPosition(best, r) then best[i]
              else if i == InsertPosition(best, r) then r
              else best[i - 1]
  {
    var pos := InsertPosition(best, r);
    best[..pos] + [r] + best[pos..]
  }

  /** Insertion keeps a sorted list sorted, and entry `i` of the result is never worse than
      entry `i` of the list it came from. */
  lemma InsertKeepsOrder(best: seq<SlamResult>, r: SlamResult)
    requires SortedByApproximation(best)
    ensures SortedByApproximation(Insert(best, r))
    ensures forall i | 0 <= i < |best| ::
      Insert(best, r)[i].approximatedError <= best[i].approximatedError
  {
    var pos := InsertPosition(best, r);
    var s := Insert(best, r);
    forall i, j | 0 <= i < j < |s|
      ensures s[i].approximatedError <= s[j].approximatedError
    {
      if j <= pos {
      } else if i < pos {
        assert best[i].approximatedError <= best[j - 1].approximatedError;
      } else if i == pos {
        assert best[pos].approximatedError <= best[j - 1].approximatedError;
      } else {
        assert best[i - 1].approximatedError <= best[j - 1].approximatedError;
      }
    }
    forall i | 0 <= i < |best|
      ensures s[i].approximatedError <= best[i].approximatedError
    {
      if i > pos {
        assert best[i - 1].approximatedError <= best[i].approximatedError;
      }
    }
  }

  /** `StoreResultIfOptimal(bestResults, result, k)`: insert the result in order of
      approximated error and keep the first `k`. */
  function StoreResultIfOptimal(best: seq<SlamResult>, r: SlamResult, k: nat): (s: seq<SlamResult>)
    ensures |s| == if |best| + 1 <= k then |best| + 1 else k
  {
    var inserted := Insert(best, r);
    if |inserted| <= k then inserted else inserted[..k]
  }

  /** The retained list after the trials `trials`, in order. */
  function KeepBest(trials: seq<SlamResult>, k: nat): seq<SlamResult> {
    if |trials| == 0 then []
    else StoreResultIfOptimal(KeepBest(trials[..|trials| - 1], k), trials[|trials| - 1], k)
  }

  /** `kept` is a top-`k` selection from `trials`: `min(trials, k)` of them, sorted by
      approximated error, and every trial left out no better than the worst one kept. */
  predicate TopK(kept: seq<SlamResult>, trials: seq<SlamResult>, k: nat)
    requires k >= 1
  {
    && |kept| == (if |trials| <= k then |trials| else k)
    && SortedByApproximation(kept)
    && (forall c | c in kept :: c in trials)
    && (forall t | t in trials ::
          t in kept || (|kept| == k && kept[k - 1].approximatedError <= t.approximatedError))
  }

  /** One call of `StoreResultIfOptimal` extends a top-`k` selection by one trial. */
  lemma StoreKeepsTopK(previous: seq<SlamResult>, trials: seq<SlamResult>, r: SlamResult, k: nat)
    requires k >= 1 && TopK(previous, trials, k)
    ensures TopK(StoreResultIfOptimal(previous, r, k), trials + [r], k)
  {
    var kept := StoreResultIfOptimal(previous, r, k);
    InsertKeepsOrder(previous, r);
    assert SortedByApproximation(kept);
    StoreKeepsMembers(previous, trials, r, k);
    StoreKeepsDropped(previous, trials, r, k);
  }

  lemma StoreKeepsMembers(previous: seq<SlamResult>, trials: seq<SlamResult>, r: SlamResult, k: nat)
    requires forall c | c in previous :: c in trials
    ensures forall c | c in StoreResultIfOptimal(previous, r, k) :: c in trials + [r]
  {
    var pos := InsertPosition(previous, r);
    var inserted := Insert(previous, r);
    var kept := StoreResultIfOptimal(previous, r, k);
    forall c | c in kept
      ensures c in trials + [r]
    {
      var i :| 0 <= i < |kept| && kept[i] == c;
      assert inserted[i] == c;
      if i != pos {
        assert c in previous;
      }
    }
  }

  lemma StoreKeepsDropped(previous: seq<SlamResult>, trials: seq<SlamResult>, r: SlamResult, k: nat)
    requires k >= 1 && |previous| <= k && SortedByApproximation(previous)
    requires forall t | t in trials ::
      t in previous || (|previous| == k && previous[k - 1].approximatedError <= t.approximatedError)
    ensures var kept := StoreResultIfOptimal(previous, r, k);
      forall t | t in trials + [r] ::
        t in kept || (|kept| == k && kept[k - 1].approximatedError <= t.approximatedError)
  {
    var pos := InsertPosition(previous, r);
    var kept := StoreResultIfOptimal(previous, r, k);
    InsertKeepsOrder(previous, r);
    forall t | t in trials + [r]
      ensures t in kept || (|kept| == k && kept[k - 1].approximatedError <= t.approximatedError)
    {
      if t == r {
        KeptOrDropped(previous, r, k, pos);
      } else if t in previous {
        var i :| 0 <= i < |previous| && previous[i] == t;
        KeptOrDropped(previous, r, k, if i < pos then i else i + 1);
      } else if |previous| == k {
        assert kept[k - 1].approximatedError <= previous[k - 1].approximatedError;
      }
    }
  }

  /** An entry of the insertion either survives the cut to `k` or is the one cut, which is
      no better than the last survivor. */
  lemma KeptOrDropped(previous: seq<SlamResult>, r: SlamResult, k: nat, j: nat)
    requires k >= 1 && |previous| <= k && SortedByApproximation(Insert(previous, r))
    requires j < |previous| + 1
    ensures var kept := StoreResultIfOptimal(previous, r, k);
      Insert(previous, r)[j] in kept ||
      (|kept| == k && kept[k - 1].approximatedError <= Insert(previous, r)[j].approximatedError)
  {
    var inserted := Insert(previous, r);
    var kept := StoreResultIfOptimal(previous, r, k);
    if j < |kept| {
      assert kept[j] == inserted[j];
    } else {
      assert kept[k - 1] == inserted[k - 1];
    }
  }

  /** The retained list is a top-`k` selection of all the trials. */
  lemma {:induction false} KeepBestIsTopK(trials: seq<SlamResult>, k: nat)
    requires k >= 1
    ensures TopK(KeepBest(trials, k), trials, k)
  {
    if |trials| > 0 {
      var prefix, last := trials[..|trials| - 1], trials[|trials| - 1];
      assert prefix + [last] == trials;
      var previous := KeepBest(prefix, k);
      assert KeepBest(trials, k) == StoreResultIfOptimal(previous, last, k);
      KeepBestIsTopK(prefix, k);
      StoreKeepsTopK(previous, prefix, last, k);
    }
  }

  /** The running minimum never increases from one score to the next. */
  lemma {:induction false} ScanMinimumNeverIncreases(scores: seq<real>, m: nat, n: nat, eps: real)
    requires m <= n <= |scores|
    ensures ScanUpTo(scores, n, eps).minError <= ScanUpTo(scores, m, eps).minError
  {
    if m < n {
      ScanMinimumNeverIncreases(scores, m, n - 1, eps);
    }
  }

  /** A scan that has returned no longer changes. */
  lemma {:induction false} ScanStaysStopped(scores: seq<real>, m: nat, n: nat, eps: real)
    requires m <= n <= |scores|
    requires Stopped(ScanUpTo(scores, m, eps), eps)
    ensures ScanUpTo(scores, n, eps) == ScanUpTo(scores, m, eps)
  {
    if m < n {
      ScanStaysStopped(scores, m, n - 1, eps);
    }
  }

  // ---------------------------------------------------------------------------
  // The best-of-N search

  /** Scores a candidate transformation: the comparison subcloud (`GetSubcloud`) is mapped
      through it (`GetTransformedCloud`), paired with its nearest points of `target`
      (`GetCorrespondingPoints`, maximum distance `1e6`, the flag passed through) and the mean
      squared error of the pairs is returned. */
  type Scorer = (Transform, seq<Point>, bool) -> real

  /** The fit SVD step: the rotation `U_after U_before^T` for two centred clouds. */
  type RotationFit = (seq<Point>, seq<Point>) -> Mat3

  function Max0(n: int): nat {
    if n > 0 then n else 0
  }

  /** How many results `StoreResultIfOptimal` keeps: 5 for `Hybrid`, 1 for `Full`. */
  function RetainedCount(calculationType: ApproximationType): (k: nat)
    ensures k >= 1
  {
    if calculationType == Hybrid then 5 else 1
  }

  /** `trial` is the fit of both clouds re-ordered by the same permutation `perm`. */
  predicate IsTrial(before: seq<Point>, after: seq<Point>, rotationOf: RotationFit,
                    perm: seq<int>, trial: SlamResult)
  {
    && 0 < |before| == |after|
    && IsPermutation(perm) && |perm| == |before|
    && trial == SingleSlamResult(Permuted(before, perm), Permuted(after, perm), rotationOf)
  }

  /** Each trial is the fit of both clouds re-ordered by the permutation at its index. */
  ghost predicate AllTrials(before: seq<Point>, after: seq<Point>, rotationOf: RotationFit,
                            trials: seq<SlamResult>, perms: seq<seq<int>>)
  {
    && |perms| == |trials|
    && forall i | 0 <= i < |trials| :: IsTrial(before, after, rotationOf, perms[i], trials[i])
  }

  lemma AllTrialsExtend(before: seq<Point>, after: seq<Point>, rotationOf: RotationFit,
                        trials: seq<SlamResult>, perms: seq<seq<int>>, trial: SlamResult, perm: seq<int>)
    requires AllTrials(before, after, rotationOf, trials, perms)
    requires IsTrial(before, after, rotationOf, perm, trial)
    ensures AllTrials(before, after, rotationOf, trials + [trial], perms + [perm])
  {
    var trials', perms' := trials + [trial], perms + [perm];
    forall i | 0 <= i < |trials'|
      ensures IsTrial(before, after, rotationOf, perms'[i], trials'[i])
    {
      if i < |trials| {
        assert perms'[i] == perms[i] && trials'[i] == trials[i];
      }
    }
  }

  /** The exact scores of the trials in the `None` policy: each against `after` re-ordered
      by that trial's permutation. */
  function TrialScores(after: seq<Point>, trials: seq<SlamResult>, perms: seq<seq<int>>,
                       compare: Scorer): (r: seq<real>)
    requires |perms| == |trials|
    requires forall i | 0 <= i < |perms| :: IsPermutation(perms[i]) && |perms[i]| == |after|
    ensures |r| == |trials|
  {
    seq(|trials|, i requires 0 <= i < |trials| =>
      assert IsPermutation(perms[i]) && |perms[i]| == |after|;
      compare(TransformOf(trials[i]), Permuted(after, perms[i]), true))
  }

  /** The exact scores of the retained results against the whole of `after`. */
  function ExactScores(kept: seq<SlamResult>, after: seq<Point>, compare: Scorer): (r: seq<real>)
    ensures |r| == |kept|
    ensures forall i | 0 <= i < |kept| :: r[i] == compare(TransformOf(kept[i]), after, false)
  {
    seq(|kept|, i requires 0 <= i < |kept| => compare(TransformOf(kept[i]), after, false))
  }

  /** The transformation a scan selects, or the default-constructed one when none was. */
  function Chosen(results: seq<SlamResult>, p: Pick): Transformation {
    if 0 <= p.index < |results| then Wrappers.Some(TransformOf(results[p.index])) else Wrappers.None
  }

  /** Every permutation re-orders `after`. */
  ghost predicate PermutationsFit(after: seq<Point>, trials: seq<SlamResult>, perms: seq<seq<int>>) {
    && |perms| == |trials|
    && forall i | 0 <= i < |perms| :: IsPermutation(perms[i]) && |perms[i]| == |after|
  }

  /** The `None` search after the trials `trials`: every trial is scored exactly as it is
      made, and the search returns at the first score at most `eps`, recording its index in
      `repetitions`; otherwise it has made all `maxRepetitions` trials. The reported error is
      the least score seen. */
  ghost predicate ExactOutcome(after: seq<Point>, repetitionsIn: int, eps: real, maxRepetitions: int,
                               compare: Scorer, best: Transformation, repetitions: int, error: real,
                               trials: seq<SlamResult>, perms: seq<seq<int>>)
  {
    && PermutationsFit(after, trials, perms)
    && var p := ScanUpTo(TrialScores(after, trials, perms, compare), |trials|, eps);
       && error == p.minError
       && best == Chosen(trials, p)
       && if Stopped(p, eps) then repetitions == p.index == |trials| - 1
          else repetitions == repetitionsIn && |trials| == Max0(maxRepetitions)
  }

  /** The `Hybrid` / `Full` search after the trials `trials`: all `maxRepetitions` trials are
      made, the best `k` by approximated error are kept, and those are scored against `after`
      in order, returning at the first score at most `eps`. The reported error is the least
      score seen. */
  ghost predicate RetainedOutcome(after: seq<Point>, repetitionsIn: int, eps: real, maxRepetitions: int,
                                  k: nat, compare: Scorer, best: Transformation, repetitions: int,
                                  error: real, trials: seq<SlamResult>)
  {
    var kept := KeepBest(trials, k);
    var p := ScanUpTo(ExactScores(kept, after, compare), |kept|, eps);
    && |trials| == Max0(maxRepetitions)
    && repetitions == repetitionsIn
    && error == p.minError
    && best == Chosen(kept, p)
  }

  /** What `GetNonIterativeTransformationMatrixSequential` returns for the random trials
      `trials`, each the fit of both clouds re-ordered by the permutation at the same index of
      `perms`. */
  ghost predicate SequentialOutcome(before: seq<Point>, after: seq<Point>, repetitionsIn: int,
                                    eps: real, maxRepetitions: int, calculationType: ApproximationType,
                                    rotationOf: RotationFit, compare: Scorer,
                                    best: Transformation, repetitions: int, error: real,
                                    trials: seq<SlamResult>, perms: seq<seq<int>>)
  {
    && |trials| <= Max0(maxRepetitions)
    && AllTrials(before, after, rotationOf, trials, perms)
    && (calculationType == None ==>
          ExactOutcome(after, repetitionsIn, eps, maxRepetitions, compare, best, repetitions,
                       error, trials, perms))
    && (calculationType != None ==>
          RetainedOutcome(after, repetitionsIn, eps, maxRepetitions, RetainedCount(calculationType),
                          compare, best, repetitions, error, trials))
  }

  /** One trial: a random permutation of the indexes applied to both clouds, then one fit. */
  method RandomTrial(before: seq<Point>, after: seq<Point>, rotationOf: RotationFit)
    returns (trial: SlamResult, permutedAfter: seq<Point>, ghost perm: seq<int>)
    requires 0 < |before| == |after|
    ensures IsTrial(before, after, rotationOf, perm, trial)
    ensures permutedAfter == Permuted(after, perm)
    ensures exists p :: IsTrial(before, after, rotationOf, p, trial) && permutedAfter == Permuted(after, p)
  {
    var cloudSize := if |before| <= |after| then |before| else |after|;
    var permutation := GetRandomPermutationVector(cloudSize);
    var permutedBefore := ApplyPermutation(before, permutation);
    permutedAfter := ApplyPermutation(after, permutation);
    trial := SingleSlamResult(permutedBefore, permutedAfter, rotationOf);
    perm := permutation;
  }

  /** The second pass over the retained results: exact scores against `after`, the running
      minimum with strict `<`, returning at the first minimum at most `eps`. */
  method SelectByExactError(kept: seq<SlamResult>, after: seq<Point>, eps: real, compare: Scorer)
    returns (best: Transformation, minError: real)
    ensures var p := ScanUpTo(ExactScores(kept, after, compare), |kept|, eps);
      minError == p.minError && best == Chosen(kept, p)
  {
    ghost var scores := ExactScores(kept, after, compare);
    ghost var index := -1;
    best := Wrappers.None;
    minError := MaxFloat;
    for i := 0 to |kept|
      invariant ScanUpTo(scores, i, eps) == Pick(minError, index)
      invariant !Stopped(Pick(minError, index), eps)
      invariant best == Chosen(kept, Pick(minError, index))
    {
      var error := compare(TransformOf(kept[i]), after, false);
      if error < minError {
        minError := error;
        best := Wrappers.Some(TransformOf(kept[i]));
        index := i;
        if minError <= eps {
          ScanStaysStopped(scores, i + 1, |kept|, eps);
          return;
        }
      }
    }
  }

  /** The state of the first pass after the trials `trials`: under `None`, the running
      minimum and the selected transformation are the scan of the trial scores, which has
      not returned; otherwise the retained list is `KeepBest` of the trials and nothing has
      been selected yet. */
  ghost predicate SearchState(after: seq<Point>, eps: real, calculationType: ApproximationType,
                              compare: Scorer, trials: seq<SlamResult>, perms: seq<seq<int>>,
                              bestResults: seq<SlamResult>, minError: real, best: Transformation,
                              index: int)
  {
    && |perms| == |trials|
    && (forall i | 0 <= i < |perms| :: IsPermutation(perms[i]) && |perms[i]| == |after|)
    && (calculationType != None ==>
          bestResults == KeepBest(trials, RetainedCount(calculationType)) && best == Wrappers.None)
    && (calculationType == None ==>
          var p := ScanUpTo(TrialScores(after, trials, perms, compare), |trials|, eps);
          p == Pick(minError, index) && !Stopped(p, eps) && best == Chosen(trials, p))
  }

  /** The body of the first pass for one trial: under `None` the trial is scored against
      `after` re-ordered by its permutation and enters the running minimum, stopping the
      search when the minimum falls to `eps`; under `Hybrid` and `Full` it is offered to
      `StoreResultIfOptimal`. */
  method RecordTrial(after: seq<Point>, eps: real, calculationType: ApproximationType,
                     compare: Scorer, ghost trials: seq<SlamResult>, ghost perms: seq<seq<int>>,
                     bestResults: seq<SlamResult>, minError: real, best: Transformation,
                     ghost index: int, trial: SlamResult, permutedAfter: seq<Point>,
                     ghost perm: seq<int>)
    returns (bestResults': seq<SlamResult>, minError': real, best': Transformation,
             ghost index': int, error: real, stopped: bool)
    requires SearchState(after, eps, calculationType, compare, trials, perms,
                         bestResults, minError, best, index)
    requires IsPermutation(perm) && |perm| == |after| && permutedAfter == Permuted(after, perm)
    ensures !stopped ==> SearchState(after, eps, calculationType, compare, trials + [trial],
                                     perms + [perm], bestResults', minError', best', index')
    ensures stopped ==> calculationType == None
    ensures stopped ==>
      var p := ScanUpTo(TrialScores(after, trials + [trial], perms + [perm], compare), |trials| + 1, eps);
      Stopped(p, eps) && p.index == |trials| && error == p.minError && best' == Chosen(trials + [trial], p)
  {
    bestResults', minError', best', index', stopped := bestResults, minError, best, index, false;
    error := trial.approximatedError;
    if calculationType == None {
      error := compare(TransformOf(trial), permutedAfter, true);
      ghost var previousScores := TrialScores(after, trials, perms, compare);
      ghost var scores := TrialScores(after, trials + [trial], perms + [perm], compare);
      assert scores[..|trials|] == previousScores;
      assert scores[|trials|] == error;
      ScanPrefix(scores, previousScores, |trials|, eps);
      if error < minError {
        minError' := error;
        best' := Wrappers.Some(TransformOf(trial));
        index' := |trials|;
        stopped := minError' <= eps;
      }
    } else {
      assert (trials + [trial])[..|trials|] == trials;
      bestResults' := StoreResultIfOptimal(bestResults, trial, RetainedCount(calculationType));
    }
  }

  /** `GetNonIterativeTransformationMatrixSequential`. The clouds must have the same size, as
      the permutation of `min(N, M)` indexes is applied to both; the source default for the
      transformation is the default-constructed pair (`None`). The out-parameter
      `repetitions` keeps the caller's value unless the `None` search returns early. */
  method GetNonIterativeTransformationMatrixSequential(
      before: seq<Point>, after: seq<Point>, repetitionsIn: int, eps: real, maxRepetitions: int,
      calculationType: ApproximationType, rotationOf: RotationFit, compare: Scorer)
    returns (best: Transformation, repetitions: int, error: real,
             ghost trials: seq<SlamResult>, ghost perms: seq<seq<int>>)
    requires |before| == |after|
    requires maxRepetitions > 0 ==> |before| > 0
    ensures SequentialOutcome(before, after, repetitionsIn, eps, maxRepetitions, calculationType,
                              rotationOf, compare, best, repetitions, error, trials, perms)
    ensures error <= MaxFloat && (best.Some? <==> error < MaxFloat)
    ensures repetitions == repetitionsIn || (calculationType == None && 0 <= repetitions < Max0(maxRepetitions))
  {
    var minError := MaxFloat;
    best := Wrappers.None;
    repetitions := repetitionsIn;
    error := 0.0;
    var bestResults: seq<SlamResult> := [];
    trials, perms := [], [];
    ghost var index := -1;
    var i := 0;
    while i < maxRepetitions
      invariant 0 <= i == |trials| <= Max0(maxRepetitions)
      invariant AllTrials(before, after, rotationOf, trials, perms)
      invariant SearchState(after, eps, calculationType, compare, trials, perms,
                            bestResults, minError, best, index)
    {
      var trial, permutedAfter, perm := RandomTrial(before, after, rotationOf);
      var stopped;
      bestResults, minError, best, index, error, stopped :=
        RecordTrial(after, eps, calculationType, compare, trials, perms, bestResults, minError,
                    best, index, trial, permutedAfter, perm);
      AllTrialsExtend(before, after, rotationOf, trials, perms, trial, perm);
      if stopped {
        repetitions := i;
        StoppedOutcome(before, after, repetitionsIn, eps, maxRepetitions, rotationOf, compare,
                       best, repetitions, error, trials, perms, trial, perm);
        trials, perms := trials + [trial], perms + [perm];
        SequentialOutcomeReports(before, after, repetitionsIn, eps, maxRepetitions, calculationType,
                                 rotationOf, compare, best, repetitions, error, trials, perms);
        return;
      }
      trials, perms := trials + [trial], perms + [perm];
      i := i + 1;
    }
    ghost var firstBest, firstMin := best, minError;
    if calculationType != None {
      best, minError := SelectByExactError(bestResults, after, eps, compare);
    }
    error := minError;
    FinishedOutcome(before, after, repetitionsIn, eps, maxRepetitions, calculationType, rotationOf,
                    compare, best, repetitions, error, trials, perms, bestResults, firstMin,
                    firstBest, index);
    SequentialOutcomeReports(before, after, repetitionsIn, eps, maxRepetitions, calculationType,
                             rotationOf, compare, best, repetitions, error, trials, perms);
  }

  /** The outcome when the `None` search returns early at the trial just made. */
  lemma StoppedOutcome(before: seq<Point>, after: seq<Point>, repetitionsIn: int, eps: real,
                       maxRepetitions: int, rotationOf: RotationFit, compare: Scorer,
                       best: Transformation, repetitions: int, error: real,
                       trials: seq<SlamResult>, perms: seq<seq<int>>, trial: SlamResult, perm: seq<int>)
    requires AllTrials(before, after, rotationOf, trials + [trial], perms + [perm])
    requires |trials| + 1 <= Max0(maxRepetitions) && repetitions == |trials|
    requires var p := ScanUpTo(TrialScores(after, trials + [trial], perms + [perm], compare), |trials| + 1, eps);
      Stopped(p, eps) && p.index == |trials| && error == p.minError && best == Chosen(trials + [trial], p)
    ensures SequentialOutcome(before, after, repetitionsIn, eps, maxRepetitions, None, rotationOf,
                              compare, best, repetitions, error, trials + [trial], perms + [perm])
  {
  }

  /** The outcome when every trial has been made: under `None` the first pass's minimum,
      otherwise the second pass over the retained results. */
  lemma FinishedOutcome(before: seq<Point>, after: seq<Point>, repetitionsIn: int, eps: real,
                        maxRepetitions: int, calculationType: ApproximationType,
                        rotationOf: RotationFit, compare: Scorer, best: Transformation,
                        repetitions: int, error: real, trials: seq<SlamResult>,
                        perms: seq<seq<int>>, bestResults: seq<SlamResult>, firstMin: real,
                        firstBest: Transformation, index: int)
    requires AllTrials(before, after, rotationOf, trials, perms)
    requires |trials| == Max0(maxRepetitions) && repetitions == repetitionsIn
    requires SearchState(after, eps, calculationType, compare, trials, perms,
                         bestResults, firstMin, firstBest, index)
    requires calculationType == None ==> best == firstBest && error == firstMin
    requires calculationType != None ==>
      var p := ScanUpTo(ExactScores(bestResults, after, compare), |bestResults|, eps);
      error == p.minError && best == Chosen(bestResults, p)
    ensures SequentialOutcome(before, after, repetitionsIn, eps, maxRepetitions, calculationType,
                              rotationOf, compare, best, repetitions, error, trials, perms)
  {
  }

  /** A completed scan reports at most `FLT_MAX`, and selects a transformation exactly when
      it reports less. */
  lemma ScanReports(results: seq<SlamResult>, scores: seq<real>, eps: real)
    requires |scores| == |results|
    ensures var p := ScanUpTo(scores, |scores|, eps);
      p.minError <= MaxFloat && (Chosen(results, p).Some? <==> p.minError < MaxFloat)
  {
    ScanSelectsBelowMaxFloat(scores, |scores|, eps);
    ScanMinimumNeverIncreases(scores, 0, |scores|, eps);
  }

  /** What the caller of `GetNonIterativeTransformationMatrixSequential` can read off its
      results: the error never exceeds `FLT_MAX`, a transformation is returned exactly when
      the error is below it, and `repetitions` keeps the caller's value unless the `None`
      search returned early, when it is the index of a trial made. */
  lemma SequentialOutcomeReports(
      before: seq<Point>, after: seq<Point>, repetitionsIn: int, eps: real, maxRepetitions: int,
      calculationType: ApproximationType, rotationOf: RotationFit, compare: Scorer,
      best: Transformation, repetitions: int, error: real,
      trials: seq<SlamResult>, perms: seq<seq<int>>)
    requires SequentialOutcome(before, after, repetitionsIn, eps, maxRepetitions, calculationType,
                               rotationOf, compare, best, repetitions, error, trials, perms)
    ensures error <= MaxFloat
    ensures best.Some? <==> error < MaxFloat
    ensures calculationType != None ==> repetitions == repetitionsIn
    ensures repetitions == repetitionsIn || 0 <= repetitions < Max0(maxRepetitions)
  {
    if calculationType == None {
      ScanReports(trials, TrialScores(after, trials, perms, compare), eps);
    } else {
      var kept := KeepBest(trials, RetainedCount(calculationType));
      ScanReports(kept, ExactScores(kept, after, compare), eps);
    }
  }

  /** The scan over a prefix only reads the prefix. */
  lemma {:induction false} ScanPrefix(scores: seq<real>, prefix: seq<real>, n: nat, eps: real)
    requires n <= |prefix| <= |scores| && scores[..|prefix|] == prefix
    ensures ScanUpTo(scores, n, eps) == ScanUpTo(prefix, n, eps)
  {
    if n > 0 {
      ScanPrefix(scores, prefix, n - 1, eps);
      assert scores[n - 1] == prefix[n - 1];
    }
  }

  /** An entry sets the minimum only by going strictly below the previous one, starting from
      `FLT_MAX`: a transformation is selected exactly when the minimum is below `FLT_MAX`. */
  lemma {:induction false} ScanSelectsBelowMaxFloat(scores: seq<real>, n: nat, eps: real)
    requires n <= |scores|
    ensures ScanUpTo(scores, n, eps).index >= 0 <==> ScanUpTo(scores, n, eps).minError < MaxFloat
  {
    if n > 0 {
      ScanSelectsBelowMaxFloat(scores, n - 1, eps);
    }
  }

  /** Under `None`, with `eps` below `FLT_MAX`: if some trial scores at most `eps`, the search
      returns the first such trial, with its index in `repetitions` and its score as the
      error. */
  lemma ExactSearchStopsAtFirstAccepted(
      after: seq<Point>, repetitionsIn: int, eps: real, maxRepetitions: int, compare: Scorer,
      best: Transformation, repetitions: int, error: real, trials: seq<SlamResult>,
      perms: seq<seq<int>>, i: int)
    requires eps < MaxFloat
    requires ExactOutcome(after, repetitionsIn, eps, maxRepetitions, compare, best, repetitions,
                          error, trials, perms)
    requires 0 <= i < |trials| && TrialScores(after, trials, perms, compare)[i] <= eps
    ensures var scores := TrialScores(after, trials, perms, compare);
      && repetitions == |trials| - 1
      && error == scores[|trials| - 1] <= eps
      && (forall j | 0 <= j < |trials| - 1 :: scores[j] > eps)
      && best == Wrappers.Some(TransformOf(trials[|trials| - 1]))
  {
    var scores := TrialScores(after, trials, perms, compare);
    var p := ScanUpTo(scores, |trials|, eps);
    ScanStopsAtFirstAccepted(scores, |trials|, eps);
    assert Stopped(p, eps);
    assert p.index == |trials| - 1 && error == p.minError;
  }

  /** Under `None`, when no trial scores at most `eps`: the search makes all `maxRepetitions`
      trials, reports the least score (or `FLT_MAX`), and returns the first trial with that
      score when it is below `FLT_MAX`, the default-constructed pair otherwise. */
  lemma ExactSearchReturnsBestOtherwise(
      after: seq<Point>, repetitionsIn: int, eps: real, maxRepetitions: int, compare: Scorer,
      best: Transformation, repetitions: int, error: real, trials: seq<SlamResult>,
      perms: seq<seq<int>>)
    requires ExactOutcome(after, repetitionsIn, eps, maxRepetitions, compare, best, repetitions,
                          error, trials, perms)
    requires forall i | 0 <= i < |trials| :: TrialScores(after, trials, perms, compare)[i] > eps
    ensures var scores := TrialScores(after, trials, perms, compare);
      && |trials| == Max0(maxRepetitions)
      && repetitions == repetitionsIn
      && error <= MaxFloat
      && (forall i | 0 <= i < |trials| :: error <= scores[i])
      && (best.Some? <==> error < MaxFloat)
      && (best.Some? ==> exists j | 0 <= j < |trials| ::
            best == Wrappers.Some(TransformOf(trials[j])) && scores[j] == error &&
            forall i | 0 <= i < j :: scores[i] > error)
  {
    var scores := TrialScores(after, trials, perms, compare);
    var p := ScanUpTo(scores, |trials|, eps);
    ScanSelectsBelowMaxFloat(scores, |trials|, eps);
    assert !Stopped(p, eps);
    ScanFindsFirstMinimum(scores, |trials|, eps);
    if p.index >= 0 {
      assert best == Wrappers.Some(TransformOf(trials[p.index])) && scores[p.index] == error;
    }
  }

  /** Under `Hybrid` and `Full`: the retained results are a top-`k` selection of the trials
      by approximated error, and the returned transformation is one of them, scored against
      the whole of `after`; the reported error is that score, and it is at most `eps` or at
      most the score of every retained result. */
  lemma ApproximatedSearchReturnsBestRetained(
      after: seq<Point>, repetitionsIn: int, eps: real, maxRepetitions: int, k: nat,
      compare: Scorer, best: Transformation, repetitions: int, error: real,
      trials: seq<SlamResult>)
    requires k >= 1
    requires RetainedOutcome(after, repetitionsIn, eps, maxRepetitions, k, compare, best,
                             repetitions, error, trials)
    ensures var kept := KeepBest(trials, k);
      && TopK(kept, trials, k)
      && (best.Some? ==> exists c | c in kept ::
            best == Wrappers.Some(TransformOf(c)) && error == compare(TransformOf(c), after, false))
      && (error <= eps || forall c | c in kept :: error <= compare(TransformOf(c), after, false))
  {
    var kept := KeepBest(trials, k);
    var scores := ExactScores(kept, after, compare);
    var p := ScanUpTo(scores, |kept|, eps);
    KeepBestIsTopK(trials, k);
    if p.index >= 0 {
      assert kept[p.index] in kept;
    }
    if !Stopped(p, eps) {
      ScanFindsFirstMinimum(scores, |kept|, eps);
      forall c | c in kept
        ensures error <= compare(TransformOf(c), after, false)
      {
        var i :| 0 <= i < |kept| && kept[i] == c;
        assert scores[i] == compare(TransformOf(c), after, false);
      }
    }
  }

  /** Under `Hybrid` and `Full`, with `eps` below `FLT_MAX`: if some retained result scores at
      most `eps` against `after`, the search returns the first such retained result, with that
      score as the error. */
  lemma ApproximatedSearchStopsAtFirstAccepted(
      after: seq<Point>, repetitionsIn: int, eps: real, maxRepetitions: int, k: nat,
      compare: Scorer, best: Transformation, repetitions: int, error: real,
      trials: seq<SlamResult>, i: int)
    requires eps < MaxFloat
    requires RetainedOutcome(after, repetitionsIn, eps, maxRepetitions, k, compare, best,
                             repetitions, error, trials)
    requires 0 <= i < |KeepBest(trials, k)|
    requires compare(TransformOf(KeepBest(trials, k)[i]), after, false) <= eps
    ensures var kept := KeepBest(trials, k);
      exists j | 0 <= j <= i ::
        && best == Wrappers.Some(TransformOf(kept[j]))
        && error == compare(TransformOf(kept[j]), after, false) <= eps
        && forall l | 0 <= l < j :: compare(TransformOf(kept[l]), after, false) > eps
  {
    SelectionStopsAtFirstAccepted(KeepBest(trials, k), after, eps, compare, best, error, i);
  }

  /** The second pass returns the first retained result whose exact score is at most `eps`. */
  lemma SelectionStopsAtFirstAccepted(kept: seq<SlamResult>, after: seq<Point>, eps: real,
                                      compare: Scorer, best: Transformation, error: real, i: int)
    requires eps < MaxFloat
    requires var p := ScanUpTo(ExactScores(kept, after, compare), |kept|, eps);
      error == p.minError && best == Chosen(kept, p)
    requires 0 <= i < |kept| && compare(TransformOf(kept[i]), after, false) <= eps
    ensures exists j | 0 <= j <= i ::
      && best == Wrappers.Some(TransformOf(kept[j]))
      && error == compare(TransformOf(kept[j]), after, false) <= eps
      && forall l | 0 <= l < j :: compare(TransformOf(kept[l]), after, false) > eps
  {
    var scores := ExactScores(kept, after, compare);
    var p := ScanUpTo(scores, |kept|, eps);
    ScanStopsAtFirstAccepted(scores, |kept|, eps);
    assert scores[i] <= eps;
    assert Stopped(p, eps);
    var j := p.index;
    assert best == Wrappers.Some(TransformOf(kept[j])) && error == scores[j];
    assert forall l | 0 <= l < j :: compare(TransformOf(kept[l]), after, false) > eps;
    assert j <= i;
  }

  // ---------------------------------------------------------------------------
  // Dispatch and configuration

  /** `GetNonIterativeTransformationMatrixParallel`: its body is commented out, so it returns
      the default-constructed pair and writes neither out-parameter. */
  method GetNonIterativeTransformationMatrixParallel(
      before: seq<Point>, after: seq<Point>, repetitionsIn: int, errorIn: real, eps: real,
      maxRepetitions: int, calculationType: ApproximationType)
    returns (best: Transformation, repetitions: int, error: real)
    ensures best == Wrappers.None && repetitions == repetitionsIn && error == errorIn
  {
    best, repetitions, error := Wrappers.None, repetitionsIn, errorIn;
  }

  /** `GetNonIterativeTransformationMatrix`: the parallel stub or the sequential search. */
  method GetNonIterativeTransformationMatrix(
      before: seq<Point>, after: seq<Point>, repetitionsIn: int, errorIn: real, eps: real,
      maxRepetitions: int, calculationType: ApproximationType, parallel: bool,
      rotationOf: RotationFit, compare: Scorer)
    returns (best: Transformation, repetitions: int, error: real,
             ghost trials: seq<SlamResult>, ghost perms: seq<seq<int>>)
    requires !parallel ==> |before| == |after| && (maxRepetitions > 0 ==> |before| > 0)
    ensures parallel ==> best == Wrappers.None && repetitions == repetitionsIn && error == errorIn
    ensures !parallel ==>
      SequentialOutcome(before, after, repetitionsIn, eps, maxRepetitions, calculationType,
                        rotationOf, compare, best, repetitions, error, trials, perms)
  {
    trials, perms := [], [];
    if parallel {
      best, repetitions, error := GetNonIterativeTransformationMatrixParallel(
        before, after, repetitionsIn, errorIn, eps, maxRepetitions, calculationType);
    } else {
      best, repetitions, error, trials, perms := GetNonIterativeTransformationMatrixSequential(
        before, after, repetitionsIn, eps, maxRepetitions, calculationType, rotationOf, compare);
    }
  }

  /** The repetition count a configuration asks for: `-1`, so no trial at all, by default. */
  function MaxRepetitionsOf(config: Configuration): int {
    match config.maxIterations
    case Some(m) => m
    case None => -1
  }

  /** `CalculateNonIterativeWithConfiguration`: the parallel search unless the sequential
      policy is configured, `NICP_EPS`, and counters starting at zero that are then
      discarded. Unless the sequential policy is configured, the result is therefore the
      default-constructed pair. */
  method CalculateNonIterativeWithConfiguration(before: seq<Point>, after: seq<Point>,
                                                config: Configuration,
                                                rotationOf: RotationFit, compare: Scorer)
    returns (best: Transformation, ghost trials: seq<SlamResult>, ghost perms: seq<seq<int>>)
    requires config.executionPolicy == Wrappers.Some(Sequential) ==>
      |before| == |after| && (MaxRepetitionsOf(config) > 0 ==> |before| > 0)
    ensures config.executionPolicy != Wrappers.Some(Sequential) ==> best == Wrappers.None
    ensures config.executionPolicy == Wrappers.Some(Sequential) ==>
      exists repetitions, error ::
        SequentialOutcome(before, after, 0, NicpEps, MaxRepetitionsOf(config),
                          config.approximationType, rotationOf, compare, best, repetitions,
                          error, trials, perms)
  {
    var maxIterations := MaxRepetitionsOf(config);
    var parallel := match config.executionPolicy
      case Some(policy) => policy == Parallel
      case None => true;
    var repetitions, error;
    best, repetitions, error, trials, perms := GetNonIterativeTransformationMatrix(
      before, after, 0, 0.0, NicpEps, maxIterations, config.approximationType, parallel,
      rotationOf, compare);
  }
}
