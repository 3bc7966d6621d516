/** Rigid Coherent Point Drift (source/coherentpointdrift.cpp): the outlier-weight clamp,
    the initial variance `CalculateSigmaSquared`, the algebra of `MStep` around its SVD, and
    the EM loop of `GetRigidCPDTransformationMatrix`.

    The loop compares floats that can be infinite or not a number (an empty cloud makes the
    initial variance `0/0`, an unchanged zero likelihood makes the relative change `0/0`);
    `Extended` keeps exactly the cases those comparisons depend on. */
module CoherentPointDrift {
  import opened Geometry
  import opened CpdEStep
  import Common
  import Wrappers

  // ---------------------------------------------------------------------------
  // Floats that may be infinite or not a number

  /** A float value as far as the loop's comparisons are concerned: a finite value,
      positive infinity, or NaN. */
  datatype Extended = Finite(value: real) | Infinity | NotANumber

  /** `a > bound` in IEEE arithmetic: infinity exceeds every finite bound, NaN none. */
  predicate Exceeds(a: Extended, bound: real) {
    match a
    case Finite(v) => v > bound
    case Infinity => true
    case NotANumber => false
  }

  function Abs(v: real): (r: real)
    ensures r >= 0.0 && (r == v || r == -v)
  {
    if v < 0.0 then -v else v
  }

  // ---------------------------------------------------------------------------
  // Outlier weight

  /** The smallest weight the clamp lets through (`1e-6f`, as an exact real). */
  const MinWeight: real := 0.000001

  /** `std::clamp(weight, 0, 1)`, then an exact 0 becomes `1e-6` and an exact 1 becomes
      `1 - 1e-6`: the result is strictly inside (0, 1), so `1 - weight` never vanishes. */
  function ClampWeight(weight: real): (w: real)
    ensures 0.0 < w < 1.0
    ensures 0.0 < weight < 1.0 ==> w == weight
    ensures weight <= 0.0 ==> w == MinWeight
    ensures weight >= 1.0 ==> w == 1.0 - MinWeight
  {
    var clamped := if weight < 0.0 then 0.0 else if weight > 1.0 then 1.0 else weight;
    if clamped == 0.0 then MinWeight
    else if clamped == 1.0 then 1.0 - MinWeight
    else clamped
  }

  /** Clamping a clamped weight changes nothing. */
  lemma ClampWeightIsIdempotent(weight: real)
    ensures ClampWeight(ClampWeight(weight)) == ClampWeight(weight)
  {
  }

  // ---------------------------------------------------------------------------
  // Initial variance

  /** `|p - after[j]|^2` summed over `j < m`. */
  function RowPairSum(p: Point, after: seq<Point>, m: nat): (r: real)
    requires m <= |after|
    ensures r >= 0.0
  {
    if m == 0 then 0.0 else RowPairSum(p, after, m - 1) + LengthSquared(Sub(p, after[m - 1]))
  }

  /** `|before[i] - after[j]|^2` summed over `i < n` and every `j`. */
  function PairSum(before: seq<Point>, after: seq<Point>, n: nat): (r: real)
    requires n <= |before|
    ensures r >= 0.0
  {
    if n == 0 then 0.0 else PairSum(before, after, n - 1) + RowPairSum(before[n - 1], after, |after|)
  }

  lemma {:induction false} RowPairSumVanishesExactly(p: Point, after: seq<Point>, m: nat)
    requires m <= |after|
    ensures RowPairSum(p, after, m) == 0.0 <==> forall j | 0 <= j < m :: after[j] == p
  {
    if m > 0 {
      RowPairSumVanishesExactly(p, after, m - 1);
      assert Sub(p, after[m - 1]) == Zero <==> after[m - 1] == p;
    }
  }

  lemma {:induction false} PairSumVanishesExactly(before: seq<Point>, after: seq<Point>, n: nat)
    requires n <= |before|
    ensures PairSum(before, after, n) == 0.0 <==>
      forall i, j | 0 <= i < n && 0 <= j < |after| :: after[j] == before[i]
  {
    if n > 0 {
      PairSumVanishesExactly(before, after, n - 1);
      RowPairSumVanishesExactly(before[n - 1], after, |after|);
    }
  }

  /** Every point of `before` coincides with every point of `after`. */
  predicate AllCoincide(before: seq<Point>, after: seq<Point>) {
    forall i, j | 0 <= i < |before| && 0 <= j < |after| :: after[j] == before[i]
  }

  /** What `CalculateSigmaSquared` returns: the mean squared pair distance divided by the
      dimension, `sum / (3 N M)`, which is `0/0` (NaN) when a cloud is empty. */
  function SigmaSquared(before: seq<Point>, after: seq<Point>): Extended {
    if |before| == 0 || |after| == 0 then NotANumber
    else Finite(PairSum(before, after, |before|) / (3.0 * (|before| as real) * (|after| as real)))
  }

  /** The initial variance is a number exactly when both clouds are non-empty; it is then
      non-negative, and zero exactly when all points coincide. */
  lemma SigmaSquaredVanishesExactlyWhenCloudsCoincide(before: seq<Point>, after: seq<Point>)
    ensures SigmaSquared(before, after).Finite? <==> |before| > 0 && |after| > 0
    ensures SigmaSquared(before, after).Finite? ==>
      && SigmaSquared(before, after).value >= 0.0
      && (SigmaSquared(before, after).value == 0.0 <==> AllCoincide(before, after))
  {
    if |before| > 0 && |after| > 0 {
      var count := 3.0 * (|before| as real) * (|after| as real);
      PositiveProduct(3.0, |before| as real);
      PositiveProduct(3.0 * (|before| as real), |after| as real);
      var sum := PairSum(before, after, |before|);
      PairSumVanishesExactly(before, after, |before|);
      if sum > 0.0 {
        PositiveRatio(sum, count);
      }
    }
  }

  /** `CalculateSigmaSquared`: the nested loops over all pairs, then one division. */
  method CalculateSigmaSquared(before: seq<Point>, after: seq<Point>) returns (s: Extended)
    ensures s == SigmaSquared(before, after)
  {
    var sum := 0.0;
    for i := 0 to |before|
      invariant sum == PairSum(before, after, i)
    {
      for j := 0 to |after|
        invariant sum == PairSum(before, after, i) + RowPairSum(before[i], after, j)
      {
        var diff := Sub(before[i], after[j]);
        sum := sum + LengthSquared(diff);
        assert RowPairSum(before[i], after, j + 1) == RowPairSum(before[i], after, j) + LengthSquared(diff);
      }
      assert PairSum(before, after, i + 1) == PairSum(before, after, i) + RowPairSum(before[i], after, |after|);
    }
    if |before| == 0 || |after| == 0 {
      s := NotANumber;
    } else {
      s := Finite(sum / (3.0 * (|before| as real) * (|after| as real)));
    }
  }

  // ---------------------------------------------------------------------------
  // Relative change of the likelihood

  /** `ntol = |(error - l) / error|`: finite while `error` is non-zero, `+inf` when only
      `error` is zero, and NaN when both are. */
  function RelativeChange(error: real, previous: real): (r: Extended)
    ensures r.Finite? ==> r.value >= 0.0
  {
    if error != 0.0 then Finite(Abs((error - previous) / error))
    else if previous != 0.0 then Infinity
    else NotANumber
  }

  /** The loop goes on after an E-step exactly when the likelihood moved by more than
      `tolerance` times its new size, or jumped to zero from a non-zero value. */
  lemma RelativeChangeExceedsExactly(error: real, previous: real, tolerance: real)
    ensures Exceeds(RelativeChange(error, previous), tolerance) <==>
      if error != 0.0 then Abs(error - previous) > tolerance * Abs(error) else previous != 0.0
  {
    if error != 0.0 {
      var q := (error - previous) / error;
      assert q * error == error - previous;
      AbsOfProduct(q, error);
      var a := Abs(error);
      assert a > 0.0;
      if Abs(q) > tolerance {
        PositiveProduct(Abs(q) - tolerance, a);
        assert (Abs(q) - tolerance) * a == Abs(q) * a - tolerance * a;
      } else {
        NonPositiveTimesPositive(Abs(q) - tolerance, a);
        assert (Abs(q) - tolerance) * a == Abs(q) * a - tolerance * a;
      }
    }
  }

  /** An unchanged likelihood ends the loop for any non-negative tolerance. */
  lemma UnchangedLikelihoodConverges(error: real, tolerance: real)
    requires tolerance >= 0.0
    ensures !Exceeds(RelativeChange(error, error), tolerance)
  {
  }

  lemma AbsOfProduct(a: real, b: real)
    ensures Abs(a * b) == Abs(a) * Abs(b)
  {
    if a < 0.0 && b < 0.0 {
      assert a * b == (-a) * (-b);
    } else if a < 0.0 {
      assert -(a * b) == (-a) * b;
    } else if b < 0.0 {
      assert -(a * b) == a * (-b);
    }
    if a != 0.0 && b != 0.0 {
      PositiveProduct(Abs(a), Abs(b));
    }
  }

  lemma NonPositiveTimesPositive(a: real, b: real)
    requires a <= 0.0 && b > 0.0
    ensures a * b <= 0.0
  {
    if a < 0.0 {
      PositiveProduct(-a, b);
      assert (-a) * b == -(a * b);
    }
  }

  // ---------------------------------------------------------------------------
  // The M-step around its SVD

  /** `sum_i w[i] * cloud[i]` (the matrix-vector product `cloud^T * w`). */
  function WeightedPointSum(cloud: seq<Point>, w: seq<real>): Point
    requires |w| == |cloud|
  {
    if |cloud| == 0 then Zero
    else
      var n := |cloud| - 1;
      Add(WeightedPointSum(cloud[..n], w[..n]), Scale(cloud[n], w[n]))
  }

  /** `sum_i w[i] * |cloud[i]|^2` (the squared coordinates weighted row by row and summed). */
  function WeightedSquareSum(cloud: seq<Point>, w: seq<real>): real
    requires |w| == |cloud|
  {
    if |cloud| == 0 then 0.0
    else
      var n := |cloud| - 1;
      WeightedSquareSum(cloud[..n], w[..n]) + w[n] * LengthSquared(cloud[n])
  }

  /** What the SVD step of `MStep` yields: the reflection-corrected rotation `U diag V^T` and
      the scale numerator `trace(S diag)`. */
  datatype Alignment = Alignment(rotation: Mat3, scaleNumerator: real)

  /** The outputs `MStep` writes: rotation, translation, scale and variance. `Degenerate`
      stands for a step that divides by zero: `Np = sum p1` is zero, or the scale is fitted
      and its denominator is zero. */
  datatype MStepResult = Solved(rotation: Mat3, translation: Point, scale: real, sigmaSquared: real) | Degenerate

  /** `MStep`. `svd(probabilities, before, after)` stands for forming the cross-covariance
      `A = (after^T px)^T - Np cB cA^T` and taking its SVD. With a constant scale the scale
      is not written and the variance is `|sub + den - 2 num| / (3 Np)`; otherwise the scale
      is `num / den` and the variance `|sub - scale num| / (3 Np)`. The translation is
      `cB - scale R cA`. */
  function MStep(probabilities: Probabilities, before: seq<Point>, after: seq<Point>,
                 constScale: bool, scale: real,
                 svd: (Probabilities, seq<Point>, seq<Point>) -> Alignment): (r: MStepResult)
    requires |probabilities.p1| == |after| && |probabilities.pt1| == |before|
    ensures SumReals(probabilities.p1) == 0.0 ==> r.Degenerate?
    ensures r.Solved? ==> r.rotation == svd(probabilities, before, after).rotation
    ensures r.Solved? && constScale ==> r.scale == scale
    ensures r.Solved? && SumReals(probabilities.p1) > 0.0 ==> r.sigmaSquared >= 0.0
  {
    var np := SumReals(probabilities.p1);
    if np == 0.0 then Degenerate
    else
      var inverted := 1.0 / np;
      var centerBefore := Scale(WeightedPointSum(before, probabilities.pt1), inverted);
      var centerAfter := Scale(WeightedPointSum(after, probabilities.p1), inverted);
      var alignment := svd(probabilities, before, after);
      var subtrahend := WeightedSquareSum(before, probabilities.pt1) - np * LengthSquared(centerBefore);
      var denominator := WeightedSquareSum(after, probabilities.p1) - np * LengthSquared(centerAfter);
      if !constScale && denominator == 0.0 then Degenerate
      else
        var newScale := if constScale then scale else alignment.scaleNumerator / denominator;
        var spread := if constScale then subtrahend + denominator - 2.0 * alignment.scaleNumerator
                      else subtrahend - newScale * alignment.scaleNumerator;
        var sigmaSquared := inverted * Abs(spread) / 3.0;
        VarianceIsNonNegative(np, spread);
        Solved(alignment.rotation, Sub(centerBefore, Scale(MulVec(alignment.rotation, centerAfter), newScale)),
               newScale, sigmaSquared)
  }

  lemma VarianceIsNonNegative(np: real, spread: real)
    ensures np > 0.0 ==> (1.0 / np) * Abs(spread) / 3.0 >= 0.0
  {
    if np > 0.0 {
      PositiveRatio(1.0, np);
      Common.NonNegativeProduct(1.0 / np, Abs(spread));
    }
  }

  /** The fitted transform `(scale R, t)` carries the weighted centre of the moving cloud
      onto the weighted centre of the fixed cloud. */
  lemma MStepMapsCenterOntoCenter(probabilities: Probabilities, before: seq<Point>, after: seq<Point>,
                                  constScale: bool, scale: real,
                                  svd: (Probabilities, seq<Point>, seq<Point>) -> Alignment)
    requires |probabilities.p1| == |after| && |probabilities.pt1| == |before|
    requires MStep(probabilities, before, after, constScale, scale, svd).Solved?
    ensures SumReals(probabilities.p1) != 0.0
    ensures var r := MStep(probabilities, before, after, constScale, scale, svd);
      TransformPoint(Transform(ScaleMat(r.scale, r.rotation), r.translation),
                     Scale(WeightedPointSum(after, probabilities.p1), 1.0 / SumReals(probabilities.p1)))
      == Scale(WeightedPointSum(before, probabilities.pt1), 1.0 / SumReals(probabilities.p1))
  {
    var r := MStep(probabilities, before, after, constScale, scale, svd);
    var centerAfter := Scale(WeightedPointSum(after, probabilities.p1), 1.0 / SumReals(probabilities.p1));
    ScaledMatrixImage(r.scale, r.rotation, centerAfter);
  }

  // ---------------------------------------------------------------------------
  // The EM loop

  /** The loop condition of `GetRigidCPDTransformationMatrix`. */
  predicate Continues(iterations: int, maxIterations: int, change: Extended, tolerance: real,
                      sigmaSquared: Extended, eps: real) {
    iterations < maxIterations && Exceeds(change, tolerance) && Exceeds(sigmaSquared, eps)
  }

  /** What the E-step of one EM iteration computes, and the variance it leaves: the exact
      kernels without truncation for `None`; for `Full` the FGT at the variance raised to at
      least 0.05; for `Hybrid` the FGT while the variance exceeds 1.5% of its initial value and
      the exact kernels truncated at `log(1e-3)` afterwards. */
  function EStepOutcome(before: seq<Point>, transformed: seq<Point>, constant: real, weight: real,
                        sigmaSquared: real, sigmaSquaredInit: real, fgt: FgtType,
                        num: GaussianNumerics): (r: (Probabilities, real))
    requires ValidNumerics(num)
    requires constant > 0.0 && 0.0 < weight < 1.0 && |before| > 0 && |transformed| > 0
    requires sigmaSquared > 0.0
    ensures |r.0.p1| == |transformed| && |r.0.pt1| == |before|
    ensures r.1 >= sigmaSquared && (fgt != Full ==> r.1 == sigmaSquared)
  {
    match fgt
    case None =>
      var e := PMatrixKernel(before, transformed, constant, sigmaSquared, false, -1.0, num.exp, num.log);
      (ExactProbabilities(e, num.log, sigmaSquared), sigmaSquared)
    case Full =>
      var raised := if sigmaSquared < 0.05 then 0.05 else sigmaSquared;
      (FgtProbabilities(before, transformed, weight, raised, sigmaSquaredInit, num), raised)
    case Hybrid =>
      if sigmaSquared > 0.015 * sigmaSquaredInit then
        (FgtProbabilities(before, transformed, weight, sigmaSquared, sigmaSquaredInit, num), sigmaSquared)
      else
        var e := PMatrixKernel(before, transformed, constant, sigmaSquared, true, 0.001, num.exp, num.log);
        (ExactProbabilities(e, num.log, sigmaSquared), sigmaSquared)
  }

  /** The E-step of one EM iteration: `ComputePMatrix` without truncation when `fgt` is
      `None`, `ComputePMatrixFast` (which may raise the variance) otherwise. The result has
      one `p1` entry per moving point and one `pt1` entry per fixed point. */
  method EStep(before: seq<Point>, transformed: seq<Point>, constant: real, weight: real,
               sigmaSquared: real, sigmaSquaredInit: real, fgt: FgtType, num: GaussianNumerics)
    returns (probabilities: Probabilities, newSigmaSquared: real)
    requires ValidNumerics(num)
    requires constant > 0.0 && 0.0 < weight < 1.0 && |before| > 0 && |transformed| > 0
    requires sigmaSquared > 0.0
    ensures |probabilities.p1| == |transformed| && |probabilities.pt1| == |before|
    ensures AllNonNegative(probabilities.p1)
    ensures fgt == None ==> newSigmaSquared == sigmaSquared
    ensures fgt == None ==>
      var e := PMatrixKernel(before, transformed, constant, sigmaSquared, false, -1.0, num.exp, num.log);
      ValidKernel(e) && probabilities == ExactProbabilities(e, num.log, sigmaSquared)
    ensures fgt == Full ==> newSigmaSquared == (if sigmaSquared < 0.05 then 0.05 else sigmaSquared)
    ensures fgt == Hybrid ==> newSigmaSquared == sigmaSquared
    ensures (probabilities, newSigmaSquared) ==
      EStepOutcome(before, transformed, constant, weight, sigmaSquared, sigmaSquaredInit, fgt, num)
  {
    if fgt == None {
      probabilities := ComputePMatrix(before, transformed, constant, sigmaSquared, false, -1.0, num.exp, num.log);
      newSigmaSquared := sigmaSquared;
    } else {
      probabilities, newSigmaSquared := ComputePMatrixFast(before, transformed, constant, weight,
                                                           sigmaSquared, sigmaSquaredInit, fgt, num);
    }
  }

  /** The inputs of the last EM iteration: the cloud the E-step ran on, the variance it ran
      at, what it computed, and the likelihood and transform the iteration started from. */
  datatype EmIteration = EmIteration(input: seq<Point>, sigmaSquared: real, probabilities: Probabilities,
                                     previousLikelihood: real, previousScale: real,
                                     previousRotation: Mat3, previousTranslation: Point)

  /** `it` is an EM iteration on `before` and `after` whose M-step is `step`: its E-step ran
      on `it.input` at `it.sigmaSquared` with the mixture constant of the initial variance
      and the clamped weight, and its M-step started from the scale it recorded. */
  ghost predicate IterationStep(before: seq<Point>, after: seq<Point>, weight: real, constScale: bool,
                                fgt: FgtType, num: GaussianNumerics,
                                svd: (Probabilities, seq<Point>, seq<Point>) -> Alignment,
                                it: EmIteration, step: MStepResult)
    requires ValidNumerics(num)
  {
    var init := SigmaSquared(before, after);
    && init.Finite? && init.value > 0.0
    && |it.input| == |after| && it.sigmaSquared > 0.0
    && var w := ClampWeight(weight);
       var constant := NormalizingConstant(num.norm, init.value, w, |after|, |before|);
       && it.probabilities == EStepOutcome(before, it.input, constant, w, it.sigmaSquared, init.value, fgt, num).0
       && step == MStep(it.probabilities, before, after, constScale, it.previousScale, svd)
  }

  /** The state the loop starts from: `after` itself, the initial variance, likelihood 0 and
      the identity transform with scale 1. */
  predicate FirstIteration(after: seq<Point>, sigmaSquaredInit: real, it: EmIteration) {
    && it.input == after && it.sigmaSquared == sigmaSquaredInit && it.previousLikelihood == 0.0
    && it.previousScale == 1.0 && it.previousRotation == Identity && it.previousTranslation == Zero
  }

  /** `next` starts where `previous` ended: its M-step was solved, and `next` runs on `after`
      moved by that step's `(scale R, t)`, at that step's variance, against the likelihood
      `previous` computed. */
  predicate Follows(after: seq<Point>, previous: EmIteration, previousStep: MStepResult, next: EmIteration) {
    && previousStep.Solved?
    && next.previousScale == previousStep.scale
    && next.previousRotation == previousStep.rotation
    && next.previousTranslation == previousStep.translation
    && next.sigmaSquared == previousStep.sigmaSquared
    && next.previousLikelihood == previous.probabilities.error
    && next.input == TransformedCloud(after, Transform(ScaleMat(previousStep.scale, previousStep.rotation),
                                                       previousStep.translation))
  }

  /** Every recorded iteration is an `IterationStep` with its recorded M-step. */
  ghost predicate AllIterationSteps(before: seq<Point>, after: seq<Point>, weight: real, constScale: bool,
                                    fgt: FgtType, num: GaussianNumerics,
                                    svd: (Probabilities, seq<Point>, seq<Point>) -> Alignment,
                                    history: seq<EmIteration>, steps: seq<MStepResult>)
    requires ValidNumerics(num)
    requires |steps| == |history|
  {
    forall k {:trigger IterationStep(before, after, weight, constScale, fgt, num, svd, history[k], steps[k])} | 0 <= k < |history| ::
      IterationStep(before, after, weight, constScale, fgt, num, svd, history[k], steps[k])
  }

  /** Iteration `k > 0` follows iteration `k - 1`, and the loop condition held after it. */
  predicate Linked(after: seq<Point>, maxIterations: int, tolerance: real, eps: real,
                   history: seq<EmIteration>, steps: seq<MStepResult>, k: int)
    requires |steps| == |history| && 0 < k < |history|
  {
    && Follows(after, history[k - 1], steps[k - 1], history[k])
    && Continues(k, maxIterations, RelativeChange(history[k - 1].probabilities.error, history[k - 1].previousLikelihood),
                 tolerance, Finite(steps[k - 1].sigmaSquared), eps)
  }

  /** `history` and `steps` are the iterations the EM loop has run, in order: the first
      starts from `FirstIteration`, each later one `Follows` its predecessor, and the loop
      condition held before each of them. */
  ghost predicate EmChain(before: seq<Point>, after: seq<Point>, weight: real, constScale: bool,
                          maxIterations: int, tolerance: real, eps: real,
                          fgt: FgtType, num: GaussianNumerics,
                          svd: (Probabilities, seq<Point>, seq<Point>) -> Alignment,
                          history: seq<EmIteration>, steps: seq<MStepResult>)
    requires ValidNumerics(num)
  {
    && |steps| == |history|
    && (|history| > 0 ==>
          && SigmaSquared(before, after).Finite?
          && FirstIteration(after, SigmaSquared(before, after).value, history[0])
          && Continues(0, maxIterations, Finite(tolerance + 10.0), tolerance, SigmaSquared(before, after), eps))
    && AllIterationSteps(before, after, weight, constScale, fgt, num, svd, history, steps)
    && AllLinked(after, maxIterations, tolerance, eps, history, steps)
  }

  /** Every recorded iteration after the first is `Linked` to its predecessor. */
  predicate AllLinked(after: seq<Point>, maxIterations: int, tolerance: real, eps: real,
                      history: seq<EmIteration>, steps: seq<MStepResult>)
    requires |steps| == |history|
  {
    forall k {:trigger Linked(after, maxIterations, tolerance, eps, history, steps, k)} | 0 < k < |history| ::
      Linked(after, maxIterations, tolerance, eps, history, steps, k)
  }

  /** Appending an iteration that follows the last one, with the loop condition holding
      between them, keeps every iteration linked. */
  lemma AllLinkedExtend(after: seq<Point>, maxIterations: int, tolerance: real, eps: real,
                        history: seq<EmIteration>, steps: seq<MStepResult>, it: EmIteration, step: MStepResult)
    requires |steps| == |history|
    requires AllLinked(after, maxIterations, tolerance, eps, history, steps)
    requires |history| > 0 ==>
      var k := |history| - 1;
      && Follows(after, history[k], steps[k], it)
      && Continues(|history|, maxIterations, RelativeChange(history[k].probabilities.error, history[k].previousLikelihood),
                   tolerance, Finite(steps[k].sigmaSquared), eps)
    ensures AllLinked(after, maxIterations, tolerance, eps, history + [it], steps + [step])
  {
    var h, s := history + [it], steps + [step];
    forall k | 0 < k < |h|
      ensures Linked(after, maxIterations, tolerance, eps, h, s, k)
    {
      if k < |history| {
        LinkedExtend(after, maxIterations, tolerance, eps, history, steps, it, step, k);
      } else {
        assert h[k - 1] == history[k - 1] && s[k - 1] == steps[k - 1] && h[k] == it;
      }
    }
  }

  /** Appending an iteration keeps every recorded iteration an `IterationStep`. */
  lemma AllIterationStepsExtend(before: seq<Point>, after: seq<Point>, weight: real, constScale: bool,
                                fgt: FgtType, num: GaussianNumerics,
                                svd: (Probabilities, seq<Point>, seq<Point>) -> Alignment,
                                history: seq<EmIteration>, steps: seq<MStepResult>, it: EmIteration, step: MStepResult)
    requires ValidNumerics(num)
    requires |steps| == |history|
    requires AllIterationSteps(before, after, weight, constScale, fgt, num, svd, history, steps)
    requires IterationStep(before, after, weight, constScale, fgt, num, svd, it, step)
    ensures AllIterationSteps(before, after, weight, constScale, fgt, num, svd, history + [it], steps + [step])
  {
    var h, s := history + [it], steps + [step];
    forall k | 0 <= k < |h|
      ensures IterationStep(before, after, weight, constScale, fgt, num, svd, h[k], s[k])
    {
      if k < |history| {
        assert h[k] == history[k] && s[k] == steps[k];
      }
    }
  }

  /** Appending an iteration keeps the earlier links, which read only earlier entries. */
  lemma LinkedExtend(after: seq<Point>, maxIterations: int, tolerance: real, eps: real,
                     history: seq<EmIteration>, steps: seq<MStepResult>, it: EmIteration, step: MStepResult, k: int)
    requires |steps| == |history| && 0 < k < |history|
    requires Linked(after, maxIterations, tolerance, eps, history, steps, k)
    ensures Linked(after, maxIterations, tolerance, eps, history + [it], steps + [step], k)
  {
    var h, s := history + [it], steps + [step];
    assert h[k - 1] == history[k - 1] && s[k - 1] == steps[k - 1] && h[k] == history[k];
  }

  /** One more iteration, started as the loop starts or from where the chain ended while the
      loop condition held, extends the chain. */
  lemma EmChainExtend(before: seq<Point>, after: seq<Point>, weight: real, constScale: bool,
                      maxIterations: int, tolerance: real, eps: real,
                      fgt: FgtType, num: GaussianNumerics,
                      svd: (Probabilities, seq<Point>, seq<Point>) -> Alignment,
                      history: seq<EmIteration>, steps: seq<MStepResult>, it: EmIteration, step: MStepResult)
    requires ValidNumerics(num)
    requires EmChain(before, after, weight, constScale, maxIterations, tolerance, eps, fgt, num, svd, history, steps)
    requires IterationStep(before, after, weight, constScale, fgt, num, svd, it, step)
    requires |history| == 0 ==>
      && FirstIteration(after, SigmaSquared(before, after).value, it)
      && Continues(0, maxIterations, Finite(tolerance + 10.0), tolerance, SigmaSquared(before, after), eps)
    requires |history| > 0 ==>
      var k := |history| - 1;
      && Follows(after, history[k], steps[k], it)
      && Continues(|history|, maxIterations, RelativeChange(history[k].probabilities.error, history[k].previousLikelihood),
                   tolerance, Finite(steps[k].sigmaSquared), eps)
    ensures EmChain(before, after, weight, constScale, maxIterations, tolerance, eps, fgt, num, svd,
                    history + [it], steps + [step])
  {
    var h, s := history + [it], steps + [step];
    assert h[0] == (if |history| == 0 then it else history[0]);
    AllIterationStepsExtend(before, after, weight, constScale, fgt, num, svd, history, steps, it, step);
    AllLinkedExtend(after, maxIterations, tolerance, eps, history, steps, it, step);
  }

  /** `GetRigidCPDTransformationMatrix`. Starting from the identity, each iteration runs the
      E-step on the moving cloud under the current transform, takes the relative change of the
      likelihood, runs the M-step and records its variance in `error`. The loop runs while
      iterations remain, the relative change exceeds `tolerance` and the variance exceeds `eps`.
      The result is `(scale R, t)`, or `None` once an M-step divided by zero (the float run then
      returns NaN entries). `history` and `steps` record every iteration and its M-step; `last`,
      `lastStep` and `change` are the final ones and the final relative change. */
  method GetRigidCpdTransformationMatrix(before: seq<Point>, after: seq<Point>, eps: real, weight: real,
                                         constScale: bool, maxIterations: int, tolerance: real,
                                         fgt: FgtType, num: GaussianNumerics,
                                         svd: (Probabilities, seq<Point>, seq<Point>) -> Alignment)
    returns (result: Wrappers.Option<Transform>, iterations: int, error: Extended,
             ghost history: seq<EmIteration>, ghost steps: seq<MStepResult>,
             ghost last: EmIteration, ghost lastStep: MStepResult, ghost change: Extended)
    requires ValidNumerics(num)
    requires eps >= 0.0
    ensures 0 <= iterations && (iterations <= maxIterations || iterations == 0)
    ensures |history| == iterations
    ensures EmChain(before, after, weight, constScale, maxIterations, tolerance, eps, fgt, num, svd, history, steps)
    ensures iterations == 0 ==> error == Finite(100000.0) && result == Wrappers.Some(Transform(ScaleMat(1.0, Identity), Zero))
    ensures iterations == 0 ==> !Continues(0, maxIterations, Finite(tolerance + 10.0), tolerance, SigmaSquared(before, after), eps)
    ensures iterations > 0 ==>
      && last == history[iterations - 1] && lastStep == steps[iterations - 1]
      && change == RelativeChange(last.probabilities.error, last.previousLikelihood)
    ensures iterations > 0 ==>
      && error == (if lastStep.Solved? then Finite(lastStep.sigmaSquared) else NotANumber)
      && result == (if lastStep.Solved? then Wrappers.Some(Transform(ScaleMat(lastStep.scale, lastStep.rotation), lastStep.translation))
                    else Wrappers.None)
    ensures iterations > 0 ==> !Continues(iterations, maxIterations, change, tolerance, error, eps)
    ensures error.Finite? ==> error.value >= 0.0
  {
    iterations := 0;
    error := Finite(100000.0);
    var rotation := Identity;
    var translation := Zero;
    var scale := 1.0;
    var sigmaSquared := CalculateSigmaSquared(before, after);
    var sigmaSquaredInit := sigmaSquared;
    SigmaSquaredVanishesExactlyWhenCloudsCoincide(before, after);
    var w := ClampWeight(weight);
    var constant := 0.0;
    if sigmaSquaredInit.Finite? {
      constant := NormalizingConstant(num.norm, sigmaSquaredInit.value, w, |after|, |before|);
    }
    var ntol := Finite(tolerance + 10.0);
    var l := 0.0;
    var transformed := after;
    var degenerate := false;
    history, steps := [], [];
    lastStep := Degenerate;
    change := ntol;
    last := EmIteration(after, 0.0, EmptyProbabilities, 0.0, 1.0, Identity, Zero);
    while Continues(iterations, maxIterations, ntol, tolerance, sigmaSquared, eps)
      invariant 0 <= iterations && (iterations <= maxIterations || iterations == 0)
      invariant |transformed| == |after| && sigmaSquaredInit == SigmaSquared(before, after)
      invariant |history| == iterations
      invariant EmChain(before, after, weight, constScale, maxIterations, tolerance, eps, fgt, num, svd, history, steps)
      invariant iterations == 0 ==>
        && transformed == after && sigmaSquared == sigmaSquaredInit && l == 0.0 && !degenerate
        && rotation == Identity && translation == Zero && scale == 1.0
        && ntol == Finite(tolerance + 10.0) && error == Finite(100000.0)
      invariant iterations > 0 ==>
        && sigmaSquaredInit.Finite? && sigmaSquaredInit.value > 0.0
        && constant == NormalizingConstant(num.norm, sigmaSquaredInit.value, w, |after|, |before|)
        && last == history[iterations - 1] && lastStep == steps[iterations - 1]
        && l == last.probabilities.error && change == ntol
        && ntol == RelativeChange(last.probabilities.error, last.previousLikelihood)
        && error == sigmaSquared && degenerate == lastStep.Degenerate?
        && sigmaSquared == (if lastStep.Solved? then Finite(lastStep.sigmaSquared) else NotANumber)
      invariant iterations > 0 && lastStep.Solved? ==>
        && rotation == lastStep.rotation && translation == lastStep.translation && scale == lastStep.scale
        && transformed == TransformedCloud(after, Transform(ScaleMat(scale, rotation), translation))
      invariant error.Finite? ==> error.value >= 0.0
      decreases maxIterations - iterations
    {
      var step; ghost var it;
      ntol, l, step, it := Iterate(before, after, weight, constScale, maxIterations, tolerance, eps, fgt, num, svd,
                                   constant, sigmaSquaredInit.value, transformed, sigmaSquared.value, l,
                                   scale, rotation, translation, history, steps);
      history, steps := history + [it], steps + [step];
      last, change, lastStep := it, ntol, step;
      if step.Solved? {
        rotation, translation, scale := step.rotation, step.translation, step.scale;
        sigmaSquared := Finite(step.sigmaSquared);
        transformed := TransformedCloud(after, Transform(ScaleMat(scale, rotation), translation));
        degenerate := false;
      } else {
        sigmaSquared := NotANumber;
        degenerate := true;
      }
      error := sigmaSquared;
      iterations := iterations + 1;
    }
    if degenerate {
      result := Wrappers.None;
    } else {
      result := Wrappers.Some(Transform(ScaleMat(scale, rotation), translation));
    }
  }

  /** One EM iteration from the transform `(scale R, t)`, whose image of `after` is
      `transformed`: the E-step at `sigmaSquared`, the relative change of its likelihood
      against `l`, and the M-step from `scale`. `last` records the iteration; run from the
      loop's start, or from where the recorded `history` ended while the loop condition
      holds, it extends that history. */
  method Iterate(before: seq<Point>, after: seq<Point>, weight: real, constScale: bool,
                 maxIterations: int, tolerance: real, eps: real,
                 fgt: FgtType, num: GaussianNumerics,
                 svd: (Probabilities, seq<Point>, seq<Point>) -> Alignment,
                 constant: real, sigmaSquaredInit: real, transformed: seq<Point>, sigmaSquared: real,
                 l: real, scale: real, ghost rotation: Mat3, ghost translation: Point,
                 ghost history: seq<EmIteration>, ghost steps: seq<MStepResult>)
    returns (ntol: Extended, likelihood: real, step: MStepResult, ghost last: EmIteration)
    requires ValidNumerics(num)
    requires SigmaSquared(before, after) == Finite(sigmaSquaredInit) && sigmaSquaredInit > 0.0
    requires constant == NormalizingConstant(num.norm, sigmaSquaredInit, ClampWeight(weight), |after|, |before|)
    requires sigmaSquared > 0.0 && |transformed| == |after|
    requires EmChain(before, after, weight, constScale, maxIterations, tolerance, eps, fgt, num, svd, history, steps)
    requires |history| == 0 ==>
      && transformed == after && sigmaSquared == sigmaSquaredInit && l == 0.0
      && scale == 1.0 && rotation == Identity && translation == Zero
      && Continues(0, maxIterations, Finite(tolerance + 10.0), tolerance, SigmaSquared(before, after), eps)
    requires |history| > 0 ==>
      var k := |history| - 1;
      && steps[k].Solved? && scale == steps[k].scale && rotation == steps[k].rotation
      && translation == steps[k].translation && sigmaSquared == steps[k].sigmaSquared
      && l == history[k].probabilities.error
      && transformed == TransformedCloud(after, Transform(ScaleMat(scale, rotation), translation))
      && Continues(|history|, maxIterations, RelativeChange(l, history[k].previousLikelihood),
                   tolerance, Finite(sigmaSquared), eps)
    ensures last == EmIteration(transformed, sigmaSquared, last.probabilities, l, scale, rotation, translation)
    ensures EmChain(before, after, weight, constScale, maxIterations, tolerance, eps, fgt, num, svd,
                    history + [last], steps + [step])
    ensures likelihood == last.probabilities.error && ntol == RelativeChange(likelihood, l)
    ensures step.Solved? ==> step.sigmaSquared >= 0.0
  {
    var w := ClampWeight(weight);
    var probabilities, _ := EStep(before, transformed, constant, w, sigmaSquared, sigmaSquaredInit, fgt, num);
    last := EmIteration(transformed, sigmaSquared, probabilities, l, scale, rotation, translation);
    ntol := RelativeChange(probabilities.error, l);
    likelihood := probabilities.error;
    SumRealsNonNegative(probabilities.p1);
    step := MStep(probabilities, before, after, constScale, scale, svd);
    EmChainExtend(before, after, weight, constScale, maxIterations, tolerance, eps, fgt, num, svd,
                  history, steps, last, step);
  }
}
