/** The E-step of rigid Coherent Point Drift (source/coherentpointdrift.cpp): the exact
    probability accumulation `ComputePMatrix` with optional truncation, the Fast Gauss
    Transform path `ComputePMatrixWithFGT` with its helpers `CalculatePt1` and
    `CalculateWeightsForPX`, and the dispatch `ComputePMatrixFast`.

    `before` is the fixed cloud (N points, indexed by `x`) and `transformed` the moving cloud
    after the current transform (M points, indexed by `k`). `exp`, `log`, the Gaussian
    normaliser `(2 pi s)^(3/2)` and the FGT library are foreign numerics and are parameters. */
module CpdEStep {
  import opened Geometry

  /** `Probabilities`: `p1` (M entries), `pt1` (N entries), `px` (M rows of three) and the
      negative log-likelihood `error`. */
  datatype Probabilities = Probabilities(p1: seq<real>, pt1: seq<real>, px: seq<Point>, error: real)

  /** A value-initialised `Probabilities()`: empty vectors and a zero error. */
  const EmptyProbabilities: Probabilities := Probabilities([], [], [], 0.0)

  /** `FGTType`: exact E-step, FGT throughout, or FGT followed by truncated exact kernels. */
  datatype FgtType = None | Full | Hybrid

  /** The floating-point library calls of the E-step. `fgt(sources, weights, targets, s, K)`
      stands for `ComputeFGTModel` on the weighted sources followed by `ComputeFGTPredict`
      at the targets, with bandwidth `sqrt(2 s)`, `K` clusters, truncation order 6 and
      far-field ratio 9: one approximated Gaussian sum per target. */
  datatype GaussianNumerics = GaussianNumerics(
    exp: real -> real,
    log: real -> real,
    norm: real -> real,
    fgt: (seq<Point>, seq<real>, seq<Point>, real, int) -> seq<real>)

  predicate AllNonNegative(s: seq<real>) {
    forall i | 0 <= i < |s| :: s[i] >= 0.0
  }

  /** The only facts used about the foreign numerics: `exp` is positive, the normaliser is
      positive for a positive variance, and the FGT returns one non-negative value per target
      when the weights are non-negative. */
  ghost predicate ValidNumerics(n: GaussianNumerics) {
    && (forall v :: n.exp(v) > 0.0)
    && (forall s | s > 0.0 :: n.norm(s) > 0.0)
    && (forall sources, weights, targets, s, k :: |n.fgt(sources, weights, targets, s, k)| == |targets|)
    && (forall sources, weights, targets, s, k, i |
          AllNonNegative(weights) && 0 <= i < |targets| :: n.fgt(sources, weights, targets, s, k)[i] >= 0.0)
  }

  /** The mixture constant `(2 pi s)^(3/2) * w * M / ((1 - w) * N)` shared by the EM set-up
      and the FGT path (`ndi`). */
  function NormalizingConstant(norm: real -> real, sigmaSquared: real, weight: real, m: nat, n: nat): (c: real)
    requires weight < 1.0 && n > 0
    ensures norm(sigmaSquared) > 0.0 && weight > 0.0 && m > 0 ==> c > 0.0
  {
    var numerator := norm(sigmaSquared) * weight * (m as real);
    var denominator := (1.0 - weight) * (n as real);
    PositiveProduct(1.0 - weight, n as real);
    if norm(sigmaSquared) > 0.0 && weight > 0.0 && m > 0 then
      PositiveProduct(norm(sigmaSquared), weight);
      PositiveProduct(norm(sigmaSquared) * weight, m as real);
      PositiveRatio(numerator, denominator);
      numerator / denominator
    else numerator / denominator
  }

  lemma PositiveProduct(a: real, b: real)
    requires a > 0.0 && b > 0.0
    ensures a * b > 0.0
  {
  }

  /** Fractions over a common non-zero denominator add up. */
  lemma AddFractions(a: real, b: real, d: real)
    requires d != 0.0
    ensures a / d + b / d == (a + b) / d
  {
  }

  /** The part `r` of `d = r + c` is the fraction `1 - c / d` of it. */
  lemma ComplementFraction(r: real, c: real, d: real)
    requires d == r + c && d != 0.0
    ensures r / d == 1.0 - c / d
  {
    AddFractions(r, c, d);
  }

  lemma PositiveRatio(a: real, b: real)
    requires a > 0.0 && b > 0.0
    ensures a / b > 0.0
  {
  }

  /** `0 < c / d <= 1` whenever `0 < c <= d`. */
  lemma RatioInUnitInterval(c: real, d: real)
    requires 0.0 < c <= d
    ensures 0.0 < c / d <= 1.0
  {
    var q := c / d;
    assert q * d == c;
    PositiveRatio(c, d);
    if q > 1.0 {
      PositiveProduct(q - 1.0, d);
      assert q * d - d == (q - 1.0) * d;
    }
  }

  // ---------------------------------------------------------------------------
  // The exact E-step, as functions of its inputs

  /** One call of `ComputePMatrix`: the clouds, the mixture constant, the exponent multiplier
      `-1/(2 s)`, the truncation switch, the threshold on the exponent (already passed
      through `log`) and the kernel `exp`. */
  datatype Kernel = Kernel(before: seq<Point>, transformed: seq<Point>, constant: real,
                           multiplier: real, doTruncate: bool, threshold: real, exp: real -> real)

  ghost predicate ValidKernel(e: Kernel) {
    e.constant > 0.0 && forall v :: e.exp(v) > 0.0
  }

  function Exponent(e: Kernel, x: int, k: int): real
    requires 0 <= x < |e.before| && 0 <= k < |e.transformed|
  {
    e.multiplier * LengthSquared(Sub(e.before[x], e.transformed[k]))
  }

  /** The pair is cut off: truncation is on and the exponent is below the threshold. */
  predicate Truncated(e: Kernel, x: int, k: int)
    requires 0 <= x < |e.before| && 0 <= k < |e.transformed|
  {
    e.doTruncate && Exponent(e, x, k) < e.threshold
  }

  /** `p(k)` while row `x` is processed: zero when truncated, the kernel value otherwise. */
  function Value(e: Kernel, x: int, k: int): (r: real)
    requires 0 <= x < |e.before| && 0 <= k < |e.transformed|
  {
    if Truncated(e, x, k) then 0.0 else e.exp(Exponent(e, x, k))
  }

  /** Truncated pairs are exactly the zero entries, and no entry is negative. */
  lemma ValueVanishesExactlyWhenTruncated(e: Kernel, x: int, k: int)
    requires ValidKernel(e)
    requires 0 <= x < |e.before| && 0 <= k < |e.transformed|
    ensures Value(e, x, k) >= 0.0
    ensures Value(e, x, k) == 0.0 <==> Truncated(e, x, k)
  {
    if !Truncated(e, x, k) {
      assert e.exp(Exponent(e, x, k)) > 0.0;
    }
  }

  /** Sum of the kept kernel values of row `x` over `k < m`. */
  function RowSum(e: Kernel, x: int, m: nat): (r: real)
    requires ValidKernel(e)
    requires 0 <= x < |e.before| && m <= |e.transformed|
    ensures r >= 0.0
  {
    if m == 0 then 0.0
    else
      ValueVanishesExactlyWhenTruncated(e, x, m - 1);
      RowSum(e, x, m - 1) + Value(e, x, m - 1)
  }

  /** `denominator` of row `x`: the kept kernel values plus the constant. */
  function Denominator(e: Kernel, x: int): (r: real)
    requires ValidKernel(e)
    requires 0 <= x < |e.before|
    ensures r >= e.constant > 0.0
  {
    RowSum(e, x, |e.transformed|) + e.constant
  }

  /** What row `x` adds to `p1(k)`: `p(k) / denominator`, skipped when `p(k)` is zero. */
  function Weight(e: Kernel, x: int, k: int): (r: real)
    requires ValidKernel(e)
    requires 0 <= x < |e.before| && 0 <= k < |e.transformed|
    ensures r >= 0.0
    ensures r == 0.0 <==> Truncated(e, x, k)
  {
    var v := Value(e, x, k);
    ValueVanishesExactlyWhenTruncated(e, x, k);
    if v != 0.0 then PositiveRatio(v, Denominator(e, x)); v / Denominator(e, x) else 0.0
  }

  /** `p1(k)` after rows `x < n`. */
  function P1Partial(e: Kernel, k: int, n: nat): (r: real)
    requires ValidKernel(e)
    requires 0 <= k < |e.transformed| && n <= |e.before|
    ensures r >= 0.0
  {
    if n == 0 then 0.0 else P1Partial(e, k, n - 1) + Weight(e, n - 1, k)
  }

  /** Row `k` of `px` after rows `x < n`: the fixed points weighted by their contributions. */
  function PxPartial(e: Kernel, k: int, n: nat): Point
    requires ValidKernel(e)
    requires 0 <= k < |e.transformed| && n <= |e.before|
  {
    if n == 0 then Zero
    else
      var previous := PxPartial(e, k, n - 1);
      if Value(e, n - 1, k) != 0.0 then Add(previous, Scale(e.before[n - 1], Weight(e, n - 1, k)))
      else previous
  }

  /** `pt1(x) = 1 - constant / denominator`. */
  function Pt1(e: Kernel, x: int): real
    requires ValidKernel(e)
    requires 0 <= x < |e.before|
  {
    1.0 - e.constant / Denominator(e, x)
  }

  /** `error` after rows `x < n`: minus the sum of the logs of the denominators. */
  function NegLogLikelihood(e: Kernel, log: real -> real, n: nat): real
    requires ValidKernel(e)
    requires n <= |e.before|
  {
    if n == 0 then 0.0 else NegLogLikelihood(e, log, n - 1) - log(Denominator(e, n - 1))
  }

  /** The whole vector `p1` after rows `x < n`. */
  function P1After(e: Kernel, n: nat): (r: seq<real>)
    requires ValidKernel(e)
    requires n <= |e.before|
    ensures |r| == |e.transformed|
    ensures forall k | 0 <= k < |r| :: r[k] == P1Partial(e, k, n)
  {
    seq(|e.transformed|, k requires 0 <= k < |e.transformed| => P1Partial(e, k, n))
  }

  /** The whole of `px` after rows `x < n`. */
  function PxAfter(e: Kernel, n: nat): (r: seq<Point>)
    requires ValidKernel(e)
    requires n <= |e.before|
    ensures |r| == |e.transformed|
    ensures forall k | 0 <= k < |r| :: r[k] == PxPartial(e, k, n)
  {
    seq(|e.transformed|, k requires 0 <= k < |e.transformed| => PxPartial(e, k, n))
  }

  function P1Vector(e: Kernel): (r: seq<real>)
    requires ValidKernel(e)
    ensures |r| == |e.transformed|
    ensures forall k | 0 <= k < |r| :: r[k] == P1Partial(e, k, |e.before|)
  {
    P1After(e, |e.before|)
  }

  function Pt1Vector(e: Kernel): (r: seq<real>)
    requires ValidKernel(e)
    ensures |r| == |e.before|
    ensures forall x | 0 <= x < |r| :: r[x] == Pt1(e, x)
  {
    seq(|e.before|, x requires 0 <= x < |e.before| => Pt1(e, x))
  }

  function PxVector(e: Kernel): (r: seq<Point>)
    requires ValidKernel(e)
    ensures |r| == |e.transformed|
    ensures forall k | 0 <= k < |r| :: r[k] == PxPartial(e, k, |e.before|)
  {
    PxAfter(e, |e.before|)
  }

  /** The `3 N log(s) / 2` term both E-steps add to the error, for `N` fixed points. */
  function VarianceTerm(n: nat, logSigmaSquared: real): real {
    3.0 * (n as real) * logSigmaSquared / 2.0
  }

  /** Everything `ComputePMatrix` returns, with the final `3 N log(s) / 2` term of the error. */
  function ExactProbabilities(e: Kernel, log: real -> real, sigmaSquared: real): Probabilities
    requires ValidKernel(e)
  {
    Probabilities(P1Vector(e), Pt1Vector(e), PxVector(e),
                  NegLogLikelihood(e, log, |e.before|) + VarianceTerm(|e.before|, log(sigmaSquared)))
  }

  /** The values `p` holds once row `x` has been scanned. */
  function RowValues(e: Kernel, x: int): (r: seq<real>)
    requires 0 <= x < |e.before|
    ensures |r| == |e.transformed|
    ensures forall k | 0 <= k < |r| :: r[k] == Value(e, x, k)
  {
    seq(|e.transformed|, k requires 0 <= k < |e.transformed| => Value(e, x, k))
  }

  /** The entry `p(k)` of row `x`: `exp` of the exponent, or zero when it is cut off. */
  method KernelValue(e: Kernel, x: int, k: int) returns (value: real)
    requires 0 <= x < |e.before| && 0 <= k < |e.transformed|
    ensures value == Value(e, x, k)
    ensures Truncated(e, x, k) ==> value == 0.0
    ensures ValidKernel(e) ==> value >= 0.0 && (value == 0.0 <==> Truncated(e, x, k))
  {
    if ValidKernel(e) {
      ValueVanishesExactlyWhenTruncated(e, x, k);
    }
    var index := e.multiplier * LengthSquared(Sub(e.before[x], e.transformed[k]));
    assert index == Exponent(e, x, k);
    value := 0.0;
    if !(e.doTruncate && index < e.threshold) {
      value := e.exp(index);
    }
  }

  /** The first inner loop of `ComputePMatrix`: `p` receives the kernel values of row `x`
      (zero where truncated) and their sum is returned. */
  method ScanRow(e: Kernel, x: int, p: array<real>) returns (sum: real)
    requires ValidKernel(e)
    requires 0 <= x < |e.before| && p.Length == |e.transformed|
    modifies p
    ensures sum == RowSum(e, x, |e.transformed|)
    ensures p[..] == RowValues(e, x)
  {
    ghost var row := RowValues(e, x);
    sum := 0.0;
    for k := 0 to |e.transformed|
      invariant sum == RowSum(e, x, k)
      invariant p[..k] == row[..k]
    {
      var value := KernelValue(e, x, k);
      p[k] := value;
      sum := sum + value;
      assert sum == RowSum(e, x, k + 1);
      assert p[..k + 1] == row[..k + 1];
    }
    assert p[..] == p[..|e.transformed|];
  }

  /** `p1` after one row: entry `k` grows by `row(k) / denominator` where `row(k)` is non-zero. */
  function SpreadWeights(p1: seq<real>, row: seq<real>, denominator: real): (r: seq<real>)
    requires |row| == |p1| && denominator != 0.0
    ensures |r| == |p1|
    ensures forall k | 0 <= k < |r| :: r[k] == p1[k] + (if row[k] != 0.0 then row[k] / denominator else 0.0)
  {
    seq(|p1|, k requires 0 <= k < |p1| => p1[k] + (if row[k] != 0.0 then row[k] / denominator else 0.0))
  }

  /** `px` after one row: row `k` gains `point` scaled by `row(k) / denominator` where `row(k)` is non-zero. */
  function SpreadPoints(px: seq<Point>, row: seq<real>, denominator: real, point: Point): (r: seq<Point>)
    requires |row| == |px| && denominator != 0.0
    ensures |r| == |px|
    ensures forall k | 0 <= k < |r| ::
      r[k] == if row[k] != 0.0 then Add(px[k], Scale(point, row[k] / denominator)) else px[k]
  {
    seq(|px|, k requires 0 <= k < |px| =>
      if row[k] != 0.0 then Add(px[k], Scale(point, row[k] / denominator)) else px[k])
  }

  /** The second inner loop of `ComputePMatrix`: every non-zero `p(k)` adds
      `p(k) / denominator` to `p1(k)` and `point` scaled by it to row `k` of `px`. */
  method SpreadRow(p: array<real>, denominator: real, point: Point, p1: array<real>, px: array<Point>)
    requires p.Length == p1.Length == px.Length && p != p1 && denominator != 0.0
    modifies p1, px
    ensures p1[..] == SpreadWeights(old(p1[..]), p[..], denominator)
    ensures px[..] == SpreadPoints(old(px[..]), p[..], denominator, point)
  {
    for k := 0 to p.Length
      invariant forall j | 0 <= j < k ::
        p1[j] == old(p1[j]) + (if p[j] != 0.0 then p[j] / denominator else 0.0)
      invariant forall j | 0 <= j < k ::
        px[j] == if p[j] != 0.0 then Add(old(px[j]), Scale(point, p[j] / denominator)) else old(px[j])
      invariant forall j | k <= j < p.Length :: p1[j] == old(p1[j]) && px[j] == old(px[j])
    {
      if p[k] != 0.0 {
        var value := p[k] / denominator;
        p1[k] := p1[k] + value;
        px[k] := Add(px[k], Scale(point, value));
      }
    }
    assert p1[..] == SpreadWeights(old(p1[..]), p[..], denominator);
    assert px[..] == SpreadPoints(old(px[..]), p[..], denominator, point);
  }

  /** Spreading row `x` of kernel values over the accumulators gives exactly their values after row `x`. */
  lemma SpreadIsNextRow(e: Kernel, x: int)
    requires ValidKernel(e)
    requires 0 <= x < |e.before|
    ensures SpreadWeights(P1After(e, x), RowValues(e, x), Denominator(e, x)) == P1After(e, x + 1)
    ensures SpreadPoints(PxAfter(e, x), RowValues(e, x), Denominator(e, x), e.before[x]) == PxAfter(e, x + 1)
  {
    var row := RowValues(e, x);
    var d := Denominator(e, x);
    var p1 := SpreadWeights(P1After(e, x), row, d);
    var px := SpreadPoints(PxAfter(e, x), row, d, e.before[x]);
    forall k | 0 <= k < |e.transformed|
      ensures p1[k] == P1Partial(e, k, x + 1) && px[k] == PxPartial(e, k, x + 1)
    {
      assert row[k] == Value(e, x, k);
    }
    assert p1 == P1After(e, x + 1);
    assert px == PxAfter(e, x + 1);
  }

  /** The two inner loops of `ComputePMatrix` for row `x`: scan the row into `p`, add the
      constant to get the denominator and spread the row into `p1` and `px`. */
  method ProcessRow(e: Kernel, x: int, p: array<real>, p1: array<real>, px: array<Point>)
    returns (denominator: real)
    requires ValidKernel(e)
    requires 0 <= x < |e.before|
    requires p.Length == p1.Length == px.Length == |e.transformed| && p != p1
    requires p1[..] == P1After(e, x) && px[..] == PxAfter(e, x)
    modifies p, p1, px
    ensures denominator == Denominator(e, x)
    ensures p1[..] == P1After(e, x + 1) && px[..] == PxAfter(e, x + 1)
  {
    ghost var row := RowValues(e, x);
    denominator := ScanRow(e, x, p);
    denominator := denominator + e.constant;
    assert denominator == Denominator(e, x);
    assert p[..] == row && p1[..] == P1After(e, x) && px[..] == PxAfter(e, x);
    SpreadIsNextRow(e, x);
    SpreadRow(p, denominator, e.before[x], p1, px);
    assert p1[..] == SpreadWeights(P1After(e, x), row, Denominator(e, x));
    assert px[..] == SpreadPoints(PxAfter(e, x), row, Denominator(e, x), e.before[x]);
  }

  /** The kernel of one `ComputePMatrix` call: the exponent multiplier is `-1/(2 s)` and, with
      `doTruncate`, the threshold is `log(truncate)` rather than `truncate` itself. */
  function PMatrixKernel(before: seq<Point>, transformed: seq<Point>, constant: real, sigmaSquared: real,
                         doTruncate: bool, truncate: real, exp: real -> real, log: real -> real): (e: Kernel)
    requires sigmaSquared != 0.0
    ensures e.before == before && e.transformed == transformed && e.constant == constant && e.exp == exp
  {
    var threshold := if doTruncate then log(truncate) else truncate;
    Kernel(before, transformed, constant, -0.5 / sigmaSquared, doTruncate, threshold, exp)
  }

  /** `ComputePMatrix`. The outer loop walks the fixed points: the row's kernel values are
      written to `p` and summed, the constant is added to give the denominator, `pt1(x)` is
      set, and the row is spread into `p1` and `px`. With `doTruncate`, `truncate` is first
      replaced by its logarithm and compared with the exponent. */
  method ComputePMatrix(before: seq<Point>, transformed: seq<Point>, constant: real, sigmaSquared: real,
                        doTruncate: bool, truncate: real, exp: real -> real, log: real -> real)
    returns (probabilities: Probabilities)
    requires constant > 0.0 && sigmaSquared != 0.0
    requires forall v :: exp(v) > 0.0
    ensures var e := PMatrixKernel(before, transformed, constant, sigmaSquared, doTruncate, truncate, exp, log);
            ValidKernel(e) && probabilities == ExactProbabilities(e, log, sigmaSquared)
  {
    var p := new real[|transformed|](_ => 0.0);
    var p1 := new real[|transformed|](_ => 0.0);
    var pt1 := new real[|before|](_ => 0.0);
    var px := new Point[|transformed|](_ => Zero);
    var e := PMatrixKernel(before, transformed, constant, sigmaSquared, doTruncate, truncate, exp, log);
    probabilities := AccumulateRows(e, log, sigmaSquared, p, p1, pt1, px);
  }

  /** The outer loop of `ComputePMatrix` over the fixed points, from zeroed `p1` and `px`. */
  method AccumulateRows(e: Kernel, log: real -> real, sigmaSquared: real,
                        p: array<real>, p1: array<real>, pt1: array<real>, px: array<Point>)
    returns (probabilities: Probabilities)
    requires ValidKernel(e)
    requires p.Length == p1.Length == px.Length == |e.transformed| && pt1.Length == |e.before|
    requires p != p1 && p != pt1 && p1 != pt1
    requires forall k | 0 <= k < |e.transformed| :: p1[k] == 0.0 && px[k] == Zero
    modifies p, p1, pt1, px
    ensures probabilities == ExactProbabilities(e, log, sigmaSquared)
  {
    var error := 0.0;
    assert p1[..] == P1After(e, 0);
    assert px[..] == PxAfter(e, 0);
    for x := 0 to |e.before|
      invariant error == NegLogLikelihood(e, log, x)
      invariant pt1[..x] == Pt1Vector(e)[..x]
      invariant p1[..] == P1After(e, x) && px[..] == PxAfter(e, x)
    {
      error := AccumulateRow(e, log, x, error, p, p1, pt1, px);
    }
    assert pt1[..] == pt1[..|e.before|];
    error := error + VarianceTerm(|e.before|, log(sigmaSquared));
    probabilities := Probabilities(p1[..], pt1[..], px[..], error);
  }

  /** One pass of the outer loop of `ComputePMatrix`: row `x` is scanned and spread, `pt1(x)`
      is set and the log of the denominator is taken off the error. */
  method AccumulateRow(e: Kernel, log: real -> real, x: int, error: real,
                       p: array<real>, p1: array<real>, pt1: array<real>, px: array<Point>)
    returns (next: real)
    requires ValidKernel(e)
    requires 0 <= x < |e.before| == pt1.Length
    requires p.Length == p1.Length == px.Length == |e.transformed|
    requires p != p1 && p != pt1 && p1 != pt1
    requires error == NegLogLikelihood(e, log, x)
    requires pt1[..x] == Pt1Vector(e)[..x]
    requires p1[..] == P1After(e, x) && px[..] == PxAfter(e, x)
    modifies p, p1, pt1, px
    ensures next == NegLogLikelihood(e, log, x + 1)
    ensures pt1[..x + 1] == Pt1Vector(e)[..x + 1]
    ensures p1[..] == P1After(e, x + 1) && px[..] == PxAfter(e, x + 1)
  {
    var denominator := ProcessRow(e, x, p, p1, px);
    ghost var done := pt1[..x];
    pt1[x] := 1.0 - e.constant / denominator;
    assert pt1[..x + 1] == done + [Pt1(e, x)];
    assert Pt1Vector(e)[..x + 1] == Pt1Vector(e)[..x] + [Pt1(e, x)];
    next := error - log(denominator);
  }

  // ---------------------------------------------------------------------------
  // Properties of the exact E-step

  /** Each `pt1(x)` lies in [0, 1): the constant is positive and at most the denominator. */
  lemma Pt1InUnitInterval(e: Kernel, x: int)
    requires ValidKernel(e)
    requires 0 <= x < |e.before|
    ensures 0.0 <= Pt1(e, x) < 1.0
  {
    RatioInUnitInterval(e.constant, Denominator(e, x));
  }

  /** Sum of the contributions of row `x` over `k < m`. */
  function WeightRowSum(e: Kernel, x: int, m: nat): real
    requires ValidKernel(e)
    requires 0 <= x < |e.before| && m <= |e.transformed|
  {
    if m == 0 then 0.0 else WeightRowSum(e, x, m - 1) + Weight(e, x, m - 1)
  }

  /** The contributions of a row add up to its kept kernel mass over its denominator. */
  lemma {:induction false} WeightRowSumIsRatio(e: Kernel, x: int, m: nat)
    requires ValidKernel(e)
    requires 0 <= x < |e.before| && m <= |e.transformed|
    ensures WeightRowSum(e, x, m) == RowSum(e, x, m) / Denominator(e, x)
  {
    if m > 0 {
      WeightRowSumIsRatio(e, x, m - 1);
      var d := Denominator(e, x);
      var v := Value(e, x, m - 1);
      assert Weight(e, x, m - 1) == v / d;
      AddFractions(RowSum(e, x, m - 1), v, d);
    }
  }

  /** Sum over `k < m` of `p1(k)` after rows `x < n`. */
  function SumP1(e: Kernel, m: nat, n: nat): real
    requires ValidKernel(e)
    requires m <= |e.transformed| && n <= |e.before|
  {
    if m == 0 then 0.0 else SumP1(e, m - 1, n) + P1Partial(e, m - 1, n)
  }

  /** Adding row `n` to every `p1(k)` adds that row's contributions to their sum. */
  lemma {:induction false} SumP1AddsRow(e: Kernel, m: nat, n: nat)
    requires ValidKernel(e)
    requires m <= |e.transformed| && n < |e.before|
    ensures SumP1(e, m, n + 1) == SumP1(e, m, n) + WeightRowSum(e, n, m)
  {
    if m > 0 {
      SumP1AddsRow(e, m - 1, n);
    }
  }

  /** Sum over `x < n` of `pt1(x)`. */
  function SumPt1(e: Kernel, n: nat): real
    requires ValidKernel(e)
    requires n <= |e.before|
  {
    if n == 0 then 0.0 else SumPt1(e, n - 1) + Pt1(e, n - 1)
  }

  lemma {:induction false} SumP1EqualsSumPt1UpTo(e: Kernel, n: nat)
    requires ValidKernel(e)
    requires n <= |e.before|
    ensures SumP1(e, |e.transformed|, n) == SumPt1(e, n)
  {
    if n > 0 {
      var x := n - 1;
      SumP1EqualsSumPt1UpTo(e, x);
      SumP1AddsRow(e, |e.transformed|, x);
      WeightRowSumIsRatio(e, x, |e.transformed|);
      ComplementFraction(RowSum(e, x, |e.transformed|), e.constant, Denominator(e, x));
    } else {
      SumP1BeforeAnyRow(e, |e.transformed|);
    }
  }

  lemma {:induction false} SumP1BeforeAnyRow(e: Kernel, m: nat)
    requires ValidKernel(e)
    requires m <= |e.transformed|
    ensures SumP1(e, m, 0) == 0.0
  {
    if m > 0 {
      SumP1BeforeAnyRow(e, m - 1);
    }
  }

  lemma {:induction false} SumOfP1Vector(e: Kernel, m: nat)
    requires ValidKernel(e)
    requires m <= |e.transformed|
    ensures SumReals(P1Vector(e)[..m]) == SumP1(e, m, |e.before|)
  {
    if m > 0 {
      assert P1Vector(e)[..m][..m - 1] == P1Vector(e)[..m - 1];
      SumOfP1Vector(e, m - 1);
    }
  }

  lemma {:induction false} SumOfPt1Vector(e: Kernel, n: nat)
    requires ValidKernel(e)
    requires n <= |e.before|
    ensures SumReals(Pt1Vector(e)[..n]) == SumPt1(e, n)
  {
    if n > 0 {
      assert Pt1Vector(e)[..n][..n - 1] == Pt1Vector(e)[..n - 1];
      SumOfPt1Vector(e, n - 1);
    }
  }

  /** Mass balance of the exact E-step: every fixed point spreads `1 - constant / denominator`
      over `p1` and puts the same amount into `pt1`, so the two vectors have the same sum.
      Also: `p1` is non-negative and `pt1` lies in [0, 1). */
  lemma ExactEStepMassBalance(e: Kernel, log: real -> real, sigmaSquared: real)
    requires ValidKernel(e)
    ensures var probabilities := ExactProbabilities(e, log, sigmaSquared);
            && SumReals(probabilities.p1) == SumReals(probabilities.pt1)
            && AllNonNegative(probabilities.p1)
            && forall x | 0 <= x < |probabilities.pt1| :: 0.0 <= probabilities.pt1[x] < 1.0
  {
    var probabilities := ExactProbabilities(e, log, sigmaSquared);
    SumOfP1Vector(e, |e.transformed|);
    SumOfPt1Vector(e, |e.before|);
    SumP1EqualsSumPt1UpTo(e, |e.before|);
    assert P1Vector(e)[..|e.transformed|] == P1Vector(e);
    assert Pt1Vector(e)[..|e.before|] == Pt1Vector(e);
    forall x | 0 <= x < |e.before|
      ensures 0.0 <= probabilities.pt1[x] < 1.0
    {
      Pt1InUnitInterval(e, x);
    }
  }

  /** A truncated pair contributes nothing to `p1`, `px` or the denominator of its row. */
  lemma TruncatedPairContributesNothing(e: Kernel, x: int, k: int)
    requires ValidKernel(e)
    requires 0 <= x < |e.before| && 0 <= k < |e.transformed|
    requires Truncated(e, x, k)
    ensures P1Partial(e, k, x + 1) == P1Partial(e, k, x)
    ensures PxPartial(e, k, x + 1) == PxPartial(e, k, x)
    ensures RowSum(e, x, k + 1) == RowSum(e, x, k)
  {
  }

  // ---------------------------------------------------------------------------
  // The Fast Gauss Transform path

  /** `CalculatePt1`: `Pt1(i) = 1 - ndi * invDenomP[i]`. */
  method CalculatePt1(invDenomP: seq<real>, ndi: real) returns (pt1: seq<real>)
    ensures |pt1| == |invDenomP|
    ensures forall i | 0 <= i < |pt1| :: pt1[i] == 1.0 - ndi * invDenomP[i]
  {
    var result := new real[|invDenomP|](_ => 0.0);
    for i := 0 to |invDenomP|
      invariant forall j | 0 <= j < i :: result[j] == 1.0 - ndi * invDenomP[j]
    {
      result[i] := 1.0 - ndi * invDenomP[i];
    }
    pt1 := result[..];
  }

  /** `1 / (Kt1 + ndi)` for every fixed point (the `std::transform` producing `invDenomP`). */
  function InverseDenominators(kt1: seq<real>, ndi: real): (r: seq<real>)
    requires AllNonNegative(kt1) && ndi > 0.0
    ensures |r| == |kt1|
    ensures forall i | 0 <= i < |r| :: r[i] * (kt1[i] + ndi) == 1.0
    ensures AllNonNegative(r)
  {
    var r := seq(|kt1|, i requires 0 <= i < |kt1| => 1.0 / (kt1[i] + ndi));
    assert AllNonNegative(r) by {
      forall i | 0 <= i < |r|
        ensures r[i] >= 0.0
      {
        PositiveRatio(1.0, kt1[i] + ndi);
      }
    }
    r
  }

  /** With `invDenomP = 1 / (Kt1 + ndi)`, `Kt1 >= 0` and `ndi > 0`, every `Pt1` entry is
      `Kt1 / (Kt1 + ndi)`, which lies in [0, 1). */
  lemma FgtPt1InUnitInterval(kt1: seq<real>, ndi: real, i: int)
    requires AllNonNegative(kt1) && ndi > 0.0
    requires 0 <= i < |kt1|
    ensures 0.0 <= 1.0 - ndi * InverseDenominators(kt1, ndi)[i] < 1.0
  {
    var d := kt1[i] + ndi;
    assert ndi * InverseDenominators(kt1, ndi)[i] == ndi / d;
    RatioInUnitInterval(ndi, d);
  }

  /** `CalculateWeightsForPX`: coordinate `row` of every point times its `invDenomP` entry. */
  method CalculateWeightsForPX(cloud: seq<Point>, invDenomP: seq<real>, row: int) returns (weights: seq<real>)
    requires |invDenomP| >= |cloud|
    requires 0 <= row < 3
    ensures |weights| == |cloud|
    ensures forall i | 0 <= i < |cloud| :: weights[i] == Coord(cloud[i], row) * invDenomP[i]
  {
    var result := new real[|cloud|](_ => 0.0);
    for i := 0 to |cloud|
      invariant forall j | 0 <= j < i :: result[j] == Coord(cloud[j], row) * invDenomP[j]
    {
      result[i] := Coord(cloud[i], row) * invDenomP[i];
    }
    weights := result[..];
  }

  /** The three weight vectors together are the cloud scaled point by point by `invDenomP`. */
  lemma WeightsForPXRebuildScaledCloud(cloud: seq<Point>, invDenomP: seq<real>,
                                       w0: seq<real>, w1: seq<real>, w2: seq<real>, i: int)
    requires |invDenomP| >= |cloud| && |w0| == |w1| == |w2| == |cloud|
    requires forall j | 0 <= j < |cloud| :: w0[j] == Coord(cloud[j], 0) * invDenomP[j]
    requires forall j | 0 <= j < |cloud| :: w1[j] == Coord(cloud[j], 1) * invDenomP[j]
    requires forall j | 0 <= j < |cloud| :: w2[j] == Coord(cloud[j], 2) * invDenomP[j]
    requires 0 <= i < |cloud|
    ensures Point(w0[i], w1[i], w2[i]) == Scale(cloud[i], invDenomP[i])
  {
  }

  /** `K_param`: `std::round` (half away from zero) of `min(N, M, 50 + s_init / s)`. */
  function TruncationCount(n: nat, m: nat, sigmaSquaredInit: real, sigmaSquared: real): (k: int)
    requires sigmaSquared != 0.0
    ensures k <= n && k <= m
    ensures sigmaSquaredInit / sigmaSquared >= -50.0 ==> k >= 0
  {
    var bound := 50.0 + sigmaSquaredInit / sigmaSquared;
    var smallest := if (n as real) <= (m as real) then n as real else m as real;
    var v := if bound < smallest then bound else smallest;
    RoundHalfAwayFromZero(v)
  }

  /** `std::round`: the nearest integer, halves rounded away from zero. */
  function RoundHalfAwayFromZero(v: real): (r: int)
    ensures -0.5 <= (r as real) - v <= 0.5
    ensures v >= 0.0 ==> r >= 0
  {
    if v >= 0.0 then (v + 0.5).Floor else -((-v + 0.5).Floor)
  }

  /** The weights `CalculateWeightsForPX` produces for coordinate `row`. */
  function WeightsForPX(cloud: seq<Point>, invDenomP: seq<real>, row: int): (r: seq<real>)
    requires |invDenomP| >= |cloud| && 0 <= row < 3
    ensures |r| == |cloud|
    ensures forall i | 0 <= i < |cloud| :: r[i] == Coord(cloud[i], row) * invDenomP[i]
  {
    seq(|cloud|, i requires 0 <= i < |cloud| => Coord(cloud[i], row) * invDenomP[i])
  }

  /** `Pt1` of the FGT path from `1 / (Kt1 + ndi)`. */
  function FgtPt1(kt1: seq<real>, ndi: real): (r: seq<real>)
    requires AllNonNegative(kt1) && ndi > 0.0
    ensures |r| == |kt1|
    ensures forall i | 0 <= i < |r| :: r[i] == 1.0 - ndi * InverseDenominators(kt1, ndi)[i]
    ensures forall i | 0 <= i < |r| :: 0.0 <= r[i] < 1.0
  {
    var invDenomP := InverseDenominators(kt1, ndi);
    var pt1 := seq(|kt1|, i requires 0 <= i < |kt1| => 1.0 - ndi * invDenomP[i]);
    assert forall i | 0 <= i < |kt1| :: 0.0 <= pt1[i] < 1.0 by {
      forall i | 0 <= i < |kt1|
        ensures 0.0 <= pt1[i] < 1.0
      {
        FgtPt1InUnitInterval(kt1, ndi, i);
      }
    }
    pt1
  }

  /** The rows of `px` from its three FGT columns. */
  function RowsOfColumns(c0: seq<real>, c1: seq<real>, c2: seq<real>): (r: seq<Point>)
    requires |c0| == |c1| == |c2|
    ensures |r| == |c0|
  {
    seq(|c0|, j requires 0 <= j < |c0| => Point(c0[j], c1[j], c2[j]))
  }

  /** The FGT error: minus the sum of `log(Kt1 + ndi)`, plus `3 N log(s) / 2`. */
  function FgtError(kt1: seq<real>, ndi: real, sigmaSquared: real, log: real -> real): real {
    var logs := seq(|kt1|, i requires 0 <= i < |kt1| => log(kt1[i] + ndi));
    -SumReals(logs) + VarianceTerm(|kt1|, log(sigmaSquared))
  }

  /** What `ComputePMatrixWithFGT` computes from the FGT results: `kt1` is the FGT of the
      moving cloud with unit weights, evaluated at the fixed points; `ndi` is the mixture
      constant; `p1` and the three columns of `px` are FGTs of the fixed cloud weighted by
      `1 / (Kt1 + ndi)`, evaluated at the moving points. */
  function FgtProbabilities(before: seq<Point>, transformed: seq<Point>, weight: real,
                            sigmaSquared: real, sigmaSquaredInit: real, num: GaussianNumerics): (r: Probabilities)
    requires ValidNumerics(num)
    requires sigmaSquared > 0.0 && 0.0 < weight < 1.0 && |before| > 0 && |transformed| > 0
    ensures |r.p1| == |transformed| && |r.pt1| == |before| && |r.px| == |transformed|
    ensures AllNonNegative(r.p1)
    ensures forall x | 0 <= x < |r.pt1| :: 0.0 <= r.pt1[x] < 1.0
  {
    var n := |before|;
    var m := |transformed|;
    var k := TruncationCount(n, m, sigmaSquaredInit, sigmaSquared);
    var kt1 := UnitWeightSums(transformed, before, sigmaSquared, k, num);
    var ndi := NormalizingConstant(num.norm, sigmaSquared, weight, m, n);
    var invDenomP := InverseDenominators(kt1, ndi);
    var p1 := num.fgt(before, invDenomP, transformed, sigmaSquared, k);
    var c0 := num.fgt(before, WeightsForPX(before, invDenomP, 0), transformed, sigmaSquared, k);
    var c1 := num.fgt(before, WeightsForPX(before, invDenomP, 1), transformed, sigmaSquared, k);
    var c2 := num.fgt(before, WeightsForPX(before, invDenomP, 2), transformed, sigmaSquared, k);
    Probabilities(p1, FgtPt1(kt1, ndi), RowsOfColumns(c0, c1, c2), FgtError(kt1, ndi, sigmaSquared, num.log))
  }

  /** `Kt1`: the FGT of `sources` with unit weights, at `targets`; one non-negative value each. */
  function UnitWeightSums(sources: seq<Point>, targets: seq<Point>, sigmaSquared: real, k: int,
                          num: GaussianNumerics): (r: seq<real>)
    requires ValidNumerics(num)
    ensures |r| == |targets| && AllNonNegative(r)
  {
    var ones := seq(|sources|, _ => 1.0);
    assert AllNonNegative(ones);
    num.fgt(sources, ones, targets, sigmaSquared, k)
  }

  /** The entries `CalculatePt1` produces from `invDenomP = 1 / (Kt1 + ndi)` are `FgtPt1`. */
  lemma CalculatedPt1IsFgtPt1(kt1: seq<real>, ndi: real, pt1: seq<real>)
    requires AllNonNegative(kt1) && ndi > 0.0
    requires |pt1| == |kt1|
    requires forall i | 0 <= i < |pt1| :: pt1[i] == 1.0 - ndi * InverseDenominators(kt1, ndi)[i]
    ensures pt1 == FgtPt1(kt1, ndi)
  {
    var expected := FgtPt1(kt1, ndi);
    forall i | 0 <= i < |pt1|
      ensures pt1[i] == expected[i]
    {
    }
  }

  /** The loop of `ComputePMatrixWithFGT` over the three coordinates: column `row` of `px` is
      the FGT of the fixed cloud weighted by coordinate `row` times `invDenomP`. */
  method FgtColumns(before: seq<Point>, transformed: seq<Point>, invDenomP: seq<real>,
                    sigmaSquared: real, k: int, num: GaussianNumerics)
    returns (columns: seq<seq<real>>)
    requires |invDenomP| >= |before|
    ensures |columns| == 3
    ensures forall r | 0 <= r < 3 ::
      columns[r] == num.fgt(before, WeightsForPX(before, invDenomP, r), transformed, sigmaSquared, k)
  {
    columns := [];
    for row := 0 to 3
      invariant |columns| == row
      invariant forall r | 0 <= r < row ::
        columns[r] == num.fgt(before, WeightsForPX(before, invDenomP, r), transformed, sigmaSquared, k)
    {
      var weights := CalculateWeightsForPX(before, invDenomP, row);
      ghost var expected := WeightsForPX(before, invDenomP, row);
      forall i | 0 <= i < |before|
        ensures weights[i] == expected[i]
      {
      }
      assert weights == expected;
      columns := columns + [num.fgt(before, weights, transformed, sigmaSquared, k)];
    }
  }

  /** `ComputePMatrixWithFGT`. */
  method ComputePMatrixWithFgt(before: seq<Point>, transformed: seq<Point>, weight: real,
                               sigmaSquared: real, sigmaSquaredInit: real, num: GaussianNumerics)
    returns (probabilities: Probabilities)
    requires ValidNumerics(num)
    requires sigmaSquared > 0.0 && 0.0 < weight < 1.0 && |before| > 0 && |transformed| > 0
    ensures probabilities == FgtProbabilities(before, transformed, weight, sigmaSquared, sigmaSquaredInit, num)
  {
    var n := |before|;
    var m := |transformed|;
    var k := TruncationCount(n, m, sigmaSquaredInit, sigmaSquared);
    var kt1 := UnitWeightSums(transformed, before, sigmaSquared, k, num);
    var ndi := NormalizingConstant(num.norm, sigmaSquared, weight, m, n);
    var invDenomP := InverseDenominators(kt1, ndi);
    var pt1 := CalculatePt1(invDenomP, ndi);
    CalculatedPt1IsFgtPt1(kt1, ndi, pt1);
    var p1 := num.fgt(before, invDenomP, transformed, sigmaSquared, k);
    var columns := FgtColumns(before, transformed, invDenomP, sigmaSquared, k, num);
    var px := RowsOfColumns(columns[0], columns[1], columns[2]);
    var error := FgtError(kt1, ndi, sigmaSquared, num.log);
    probabilities := Probabilities(p1, pt1, px, error);
  }

  // ---------------------------------------------------------------------------
  // Dispatch

  /** `ComputePMatrixFast`. `Full` raises the variance (an in-out argument) to at least 0.05
      and uses the FGT; `Hybrid` uses the FGT while the variance exceeds 1.5% of its initial
      value and the exact kernels truncated at `log(1e-3)` afterwards, leaving the variance
      as it is; any other type yields an empty result. */
  method ComputePMatrixFast(before: seq<Point>, transformed: seq<Point>, constant: real, weight: real,
                            sigmaSquared: real, sigmaSquaredInit: real, fgt: FgtType, num: GaussianNumerics)
    returns (probabilities: Probabilities, newSigmaSquared: real)
    requires ValidNumerics(num)
    requires constant > 0.0 && 0.0 < weight < 1.0 && |before| > 0 && |transformed| > 0
    requires fgt == Hybrid ==> sigmaSquared > 0.0
    ensures fgt == Full ==>
      && newSigmaSquared == (if sigmaSquared < 0.05 then 0.05 else sigmaSquared)
      && newSigmaSquared >= 0.05 && newSigmaSquared >= sigmaSquared
      && probabilities == FgtProbabilities(before, transformed, weight, newSigmaSquared, sigmaSquaredInit, num)
    ensures fgt == Hybrid ==> newSigmaSquared == sigmaSquared
    ensures fgt == Hybrid && sigmaSquared > 0.015 * sigmaSquaredInit ==>
      probabilities == FgtProbabilities(before, transformed, weight, sigmaSquared, sigmaSquaredInit, num)
    ensures fgt == Hybrid && sigmaSquared <= 0.015 * sigmaSquaredInit ==>
      var e := PMatrixKernel(before, transformed, constant, sigmaSquared, true, 0.001, num.exp, num.log);
      ValidKernel(e) && probabilities == ExactProbabilities(e, num.log, sigmaSquared)
    ensures fgt == None ==> newSigmaSquared == sigmaSquared && probabilities == EmptyProbabilities
  {
    newSigmaSquared := sigmaSquared;
    if fgt == Full {
      if newSigmaSquared < 0.05 {
        newSigmaSquared := 0.05;
      }
      probabilities := ComputePMatrixWithFgt(before, transformed, weight, newSigmaSquared, sigmaSquaredInit, num);
      return;
    }
    if fgt == Hybrid {
      if newSigmaSquared > 0.015 * sigmaSquaredInit {
        probabilities := ComputePMatrixWithFgt(before, transformed, weight, newSigmaSquared, sigmaSquaredInit, num);
      } else {
        probabilities := ComputePMatrix(before, transformed, constant, newSigmaSquared, true, 0.001, num.exp, num.log);
      }
      return;
    }
    probabilities := EmptyProbabilities;
  }
}
