/** The correspondence and error utilities of the ICP engine (source/common.cpp):
    centre of mass and centring, mean squared error and the transform tests,
    brute-force nearest-index search, closest-point pairing, random clouds, and the
    loop control of the ICP iteration. */
module Common {
  import opened Geometry
  import opened Permutations

  /** `TEST_EPS`, the mean squared error below which a transform is accepted. */
  const TestEps: real := 0.000001

  /** `std::numeric_limits<float>::max()`, exactly. */
  const MaxFloat: real := 340282346638528859811704183484516925440.0

  // ---------------------------------------------------------------------------
  // Centre of mass and centring

  /** `GetCenterOfMass`: the sum of the points divided by their count. The source divides
      by zero on an empty cloud, so a point is required. */
  function CenterOfMass(cloud: seq<Point>): (c: Point)
    requires |cloud| > 0
    ensures Scale(c, |cloud| as real) == SumPoints(cloud)
  {
    var s := SumPoints(cloud);
    var n := |cloud| as real;
    Point(s.x / n, s.y / n, s.z / n)
  }

  /** `GetAlignedCloud`: every point moved by minus the centre of mass, order kept.
      An empty cloud gives an empty result (the centre is never used). */
  function AlignedCloud(cloud: seq<Point>): (r: seq<Point>)
    ensures |r| == |cloud|
    ensures |cloud| > 0 ==> forall i | 0 <= i < |r| :: Add(r[i], CenterOfMass(cloud)) == cloud[i]
  {
    if |cloud| == 0 then []
    else
      var center := CenterOfMass(cloud);
      seq(|cloud|, i requires 0 <= i < |cloud| => Sub(cloud[i], center))
  }

  /** Summing a cloud shifted by `-c` removes `|cloud|` copies of `c`. */
  lemma {:induction false} SumShifted(cloud: seq<Point>, c: Point)
    ensures SumPoints(seq(|cloud|, i requires 0 <= i < |cloud| => Sub(cloud[i], c)))
         == Sub(SumPoints(cloud), Scale(c, |cloud| as real))
  {
    var shifted := seq(|cloud|, i requires 0 <= i < |cloud| => Sub(cloud[i], c));
    if |cloud| > 0 {
      var n := |cloud| - 1;
      var prefix := cloud[..n];
      var shiftedPrefix := seq(|prefix|, i requires 0 <= i < |prefix| => Sub(prefix[i], c));
      SumShifted(prefix, c);
      assert shifted[..n] == shiftedPrefix;
      assert SumPoints(shifted) == Add(SumPoints(shiftedPrefix), Sub(cloud[n], c));
      assert SumPoints(cloud) == Add(SumPoints(prefix), cloud[n]);
      var m := n as real;
      var s, t, p := SumPoints(shiftedPrefix), SumPoints(prefix), cloud[n];
      assert s == Sub(t, Scale(c, m));
      ShiftStep(s, t, p, c, m);
      assert |cloud| as real == m + 1.0;
    }
  }

  /** One coordinate of the induction step of `SumShifted`. */
  lemma ShiftStep(s: Point, t: Point, p: Point, c: Point, m: real)
    requires s == Sub(t, Scale(c, m))
    ensures Add(s, Sub(p, c)) == Sub(Add(t, p), Scale(c, m + 1.0))
  {
    assert c.x * (m + 1.0) == c.x * m + c.x;
    assert c.y * (m + 1.0) == c.y * m + c.y;
    assert c.z * (m + 1.0) == c.z * m + c.z;
  }

  /** In exact arithmetic a centred cloud has its centre of mass at the origin. */
  lemma AlignedCloudSumsToZero(cloud: seq<Point>)
    ensures SumPoints(AlignedCloud(cloud)) == Zero
  {
    if |cloud| > 0 {
      SumShifted(cloud, CenterOfMass(cloud));
    }
  }

  // ---------------------------------------------------------------------------
  // Mean squared error and the transform tests

  /** Squared distance between a point and its image under `t`'s correspondent. */
  function Residual(before: Point, after: Point, t: Transform): (r: real)
    ensures r >= 0.0
    ensures r == 0.0 <==> after == TransformPoint(t, before)
  {
    var image := TransformPoint(t, before);
    var difference := Sub(after, image);
    assert difference == Zero <==> after == image;
    LengthSquared(difference)
  }

  /** Sum of the squared residuals of the first `|before|` pairs. It is zero exactly
      when every transformed point lands on its partner. */
  function ErrorSum(before: seq<Point>, after: seq<Point>, t: Transform): (r: real)
    requires |after| >= |before|
    ensures r >= 0.0
    ensures r == 0.0 <==> forall i | 0 <= i < |before| :: after[i] == TransformPoint(t, before[i])
  {
    if |before| == 0 then 0.0
    else
      var n := |before| - 1;
      ErrorSum(before[..n], after, t) + Residual(before[n], after[n], t)
  }

  /** A single residual never exceeds the sum. */
  lemma {:induction false} ResidualBoundedBySum(before: seq<Point>, after: seq<Point>, t: Transform, i: int)
    requires |after| >= |before|
    requires 0 <= i < |before|
    ensures Residual(before[i], after[i], t) <= ErrorSum(before, after, t)
  {
    var n := |before| - 1;
    var rest := ErrorSum(before[..n], after, t);
    var last := Residual(before[n], after[n], t);
    assert ErrorSum(before, after, t) == rest + last;
    if i < n {
      ResidualBoundedBySum(before[..n], after, t, i);
      assert before[..n][i] == before[i];
    }
  }

  /** The mean squared error: non-negative, and zero exactly when the transform maps every
      point of `before` onto the point of `after` at the same index. */
  function MeanSquaredError(before: seq<Point>, after: seq<Point>, t: Transform): (r: real)
    requires 0 < |before| <= |after|
    ensures r >= 0.0
    ensures r == 0.0 <==> forall i | 0 <= i < |before| :: after[i] == TransformPoint(t, before[i])
  {
    ErrorSum(before, after, t) / (|before| as real)
  }

  /** `GetMeanSquaredError`: the accumulator loop over the points of `before`. The source
      reads `after[i]` for every `i < |before|` and divides by `|before|`. */
  method GetMeanSquaredError(before: seq<Point>, after: seq<Point>, t: Transform) returns (mse: real)
    requires 0 < |before| <= |after|
    ensures mse == MeanSquaredError(before, after, t)
    ensures mse >= 0.0
  {
    var diffSum := 0.0;
    for i := 0 to |before|
      invariant diffSum == ErrorSum(before[..i], after, t)
    {
      assert before[..i + 1][..i] == before[..i];
      diffSum := diffSum + Residual(before[i], after[i], t);
    }
    assert before[..|before|] == before;
    mse := diffSum / (|before| as real);
  }

  /** `TestTransformOrdered`: false when the sizes differ; on two empty clouds the source
      compares 0/0 (NaN) with the threshold, which is false as well; otherwise the mean
      squared error is compared with `TEST_EPS`. */
  predicate TestTransformOrdered(before: seq<Point>, after: seq<Point>, t: Transform) {
    |before| == |after| && |before| > 0 && MeanSquaredError(before, after, t) <= TestEps
  }

  /** An accepted transform leaves no single residual above `|before| * TEST_EPS`. */
  lemma TestTransformOrderedBoundsEveryResidual(before: seq<Point>, after: seq<Point>, t: Transform, i: int)
    requires TestTransformOrdered(before, after, t)
    requires 0 <= i < |before|
    ensures |before| == |after|
    ensures Residual(before[i], after[i], t) <= (|before| as real) * TestEps
  {
    ResidualBoundedBySum(before, after, t, i);
    MeanBound(ErrorSum(before, after, t), |before| as real, TestEps);
  }

  lemma MeanBound(sum: real, count: real, bound: real)
    requires count > 0.0 && sum / count <= bound
    ensures sum <= count * bound
  {
    assert sum == (sum / count) * count;
  }

  /** The exactly transformed cloud passes the ordered test, and the test fails whenever
      the sizes differ. */
  lemma ExactTransformPassesOrderedTest(cloud: seq<Point>, t: Transform, other: seq<Point>)
    requires |cloud| > 0
    ensures TestTransformOrdered(cloud, TransformedCloud(cloud, t), t)
    ensures |other| != |cloud| ==> !TestTransformOrdered(cloud, other, t)
  {
  }

  /** `TestTransformWithPermutation`: permute `before` first, then run the ordered test. */
  predicate TestTransformWithPermutation(before: seq<Point>, after: seq<Point>, perm: seq<int>, t: Transform)
    requires |perm| >= |before|
    requires forall i | 0 <= i < |before| :: 0 <= perm[i] < |before|
  {
    TestTransformOrdered(Permuted(before, perm), after, t)
  }

  /** Transforming a permuted cloud and then checking it against the same permutation
      succeeds. */
  lemma PermutedTransformPassesTest(cloud: seq<Point>, p: seq<int>, t: Transform)
    requires |cloud| > 0
    requires IsPermutation(p) && |p| == |cloud|
    ensures TestTransformWithPermutation(cloud, TransformedCloud(Permuted(cloud, p), t), p, t)
  {
    ExactTransformPassesOrderedTest(Permuted(cloud, p), t, []);
  }

  // ---------------------------------------------------------------------------
  // Nearest-index search and closest pairs

  function Distance(p: Point, q: Point): real {
    LengthSquared(Sub(q, p))
  }

  /** Some scanned candidate is closer than the initial `FLT_MAX` bound. */
  predicate SomeCloserThanMax(p: Point, after: seq<Point>, m: nat)
    requires m <= |after|
  {
    exists j {:trigger Distance(p, after[j])} | 0 <= j < m :: Distance(p, after[j]) < MaxFloat
  }

  /** What the inner scan of `GetClosestPointIndexes` leaves after looking at `after[..m]`:
      the first index of least squared distance and that distance, or the initial `0` and
      `FLT_MAX` when no candidate beats `FLT_MAX`. */
  predicate ScanState(p: Point, after: seq<Point>, m: nat, best: int, bestLength: real)
    requires m <= |after|
  {
    if SomeCloserThanMax(p, after, m) then
      && 0 <= best < m
      && bestLength == Distance(p, after[best])
      && (forall j {:trigger Distance(p, after[j])} | 0 <= j < m :: bestLength <= Distance(p, after[j]))
      && (forall j {:trigger Distance(p, after[j])} | 0 <= j < best :: bestLength < Distance(p, after[j]))
    else
      best == 0 && bestLength == MaxFloat
  }

  /** `k` is the index the scan of `after[..m]` chooses for `p`: the first nearest one. */
  predicate IsClosestIndex(p: Point, after: seq<Point>, m: nat, k: int)
    requires m <= |after|
  {
    ScanState(p, after, m, k, if SomeCloserThanMax(p, after, m) && 0 <= k < m then Distance(p, after[k]) else MaxFloat)
  }

  /** The scan's choice is unique. */
  lemma ClosestIndexIsUnique(p: Point, after: seq<Point>, m: nat, k1: int, k2: int)
    requires m <= |after|
    requires IsClosestIndex(p, after, m, k1) && IsClosestIndex(p, after, m, k2)
    ensures k1 == k2
  {
  }

  /** The inner loop of `GetClosestPointIndexes` for one point `p`: entry `i` of the two
      arrays, starting from `0` and `FLT_MAX`, ends as the scan of `after[..size]` leaves it. */
  method ScanClosest(p: Point, after: seq<Point>, size: nat, i: int,
                     resultPermutation: array<int>, bestLength: array<real>)
    requires size <= |after| && 0 <= i < resultPermutation.Length == bestLength.Length
    requires resultPermutation[i] == 0 && bestLength[i] == MaxFloat
    modifies resultPermutation, bestLength
    ensures ScanState(p, after, size, resultPermutation[i], bestLength[i])
    ensures resultPermutation[..] == old(resultPermutation[..])[i := resultPermutation[i]]
    ensures bestLength[..] == old(bestLength[..])[i := bestLength[i]]
  {
    for j := 0 to size
      invariant ScanState(p, after, j, resultPermutation[i], bestLength[i])
      invariant resultPermutation[..] == old(resultPermutation[..])[i := resultPermutation[i]]
      invariant bestLength[..] == old(bestLength[..])[i := bestLength[i]]
    {
      var length := Distance(p, after[j]);
      if length < bestLength[i] {
        bestLength[i] := length;
        resultPermutation[i] := j;
      }
      assert SomeCloserThanMax(p, after, j) ==> SomeCloserThanMax(p, after, j + 1);
    }
  }

  /** `GetClosestPointIndexes`: for each point of `before`, the first index `j < |before|`
      of a nearest point `after[j]` (strict `<` keeps the first of equal distances). Only
      the first `|before|` points of `after` are scanned. */
  method GetClosestPointIndexes(before: seq<Point>, after: seq<Point>) returns (indexes: seq<int>)
    requires |after| >= |before|
    ensures |indexes| == |before|
    ensures forall i | 0 <= i < |before| :: 0 <= indexes[i] < |before|
    ensures forall i | 0 <= i < |before| :: IsClosestIndex(before[i], after, |before|, indexes[i])
  {
    var size := |before|;
    var resultPermutation := new int[size](_ => 0);
    var bestLength := new real[size](_ => MaxFloat);
    for i := 0 to size
      invariant forall k | 0 <= k < i :: IsClosestIndex(before[k], after, size, resultPermutation[k])
      invariant forall k | i <= k < size :: resultPermutation[k] == 0 && bestLength[k] == MaxFloat
    {
      ScanClosest(before[i], after, size, i, resultPermutation, bestLength);
    }
    indexes := resultPermutation[..];
    forall i | 0 <= i < size
      ensures 0 <= indexes[i] < size
    {
      if !SomeCloserThanMax(before[i], after, size) {
        assert indexes[i] == 0;
      }
    }
  }

  /** With pairwise distinct points, nearest-index search against a permuted copy of the
      cloud finds the inverse permutation, so inverting it recovers the permutation. */
  lemma ClosestIndexesOfPermutedCloud(cloud: seq<Point>, p: seq<int>, indexes: seq<int>)
    requires forall a, b | 0 <= a < b < |cloud| :: cloud[a] != cloud[b]
    requires IsPermutation(p) && |p| == |cloud|
    requires |indexes| == |cloud|
    requires forall i | 0 <= i < |cloud| :: IsClosestIndex(cloud[i], Permuted(cloud, p), |cloud|, indexes[i])
    ensures indexes == Inverse(p)
    ensures TestPermutation(p, Inverse(indexes))
  {
    InverseOfPermutation(p);
    forall i | 0 <= i < |cloud|
      ensures indexes[i] == Inverse(p)[i]
    {
      ClosestIndexOfPermutedPoint(cloud, p, i, indexes[i]);
    }
    InverseIsInvolutive(p);
  }

  /** One point of `ClosestIndexesOfPermutedCloud`: the only point of the permuted cloud at
      distance zero sits at the inverse position, and the scan must choose it. */
  lemma ClosestIndexOfPermutedPoint(cloud: seq<Point>, p: seq<int>, i: int, k: int)
    requires forall a, b | 0 <= a < b < |cloud| :: cloud[a] != cloud[b]
    requires IsPermutation(p) && |p| == |cloud|
    requires 0 <= i < |cloud|
    requires IsClosestIndex(cloud[i], Permuted(cloud, p), |cloud|, k)
    ensures k == Inverse(p)[i]
  {
    var target := Permuted(cloud, p);
    InverseOfPermutation(p);
    var star := Inverse(p)[i];
    assert target[star] == cloud[i];
    assert Distance(cloud[i], target[star]) == 0.0;
    assert SomeCloserThanMax(cloud[i], target, |cloud|);
    assert Distance(cloud[i], target[k]) == 0.0;
    assert cloud[p[k]] == cloud[i];
    assert p[k] == i;
  }

  /** `GetClosestPointPair`: `before` unchanged and `after` reordered by the nearest indexes.
      `ApplyPermutation` reads one index per point of `after`, so the clouds have equal size. */
  method GetClosestPointPair(before: seq<Point>, after: seq<Point>)
    returns (first: seq<Point>, second: seq<Point>, ghost indexes: seq<int>)
    requires |before| == |after|
    ensures first == before
    ensures |indexes| == |before| && |second| == |before|
    ensures forall i | 0 <= i < |before| :: 0 <= indexes[i] < |after| && second[i] == after[indexes[i]]
    ensures forall i | 0 <= i < |before| :: IsClosestIndex(before[i], after, |before|, indexes[i])
  {
    var permutation := GetClosestPointIndexes(before, after);
    var orderedCloudAfter := ApplyPermutation(after, permutation);
    first, second, indexes := before, orderedCloudAfter, permutation;
  }

  /** `paired[i]` is `after[indexes[i]]`, the point of `after` the nearest-index scan
      chooses for `cloud[i]`. */
  predicate ClosestPairing(cloud: seq<Point>, after: seq<Point>, indexes: seq<int>, paired: seq<Point>)
    requires |cloud| <= |after|
  {
    && |indexes| == |cloud| && |paired| == |cloud|
    && (forall i | 0 <= i < |cloud| :: 0 <= indexes[i] < |after| && paired[i] == after[indexes[i]])
    && (forall i | 0 <= i < |cloud| :: IsClosestIndex(cloud[i], after, |cloud|, indexes[i]))
  }

  // ---------------------------------------------------------------------------
  // Random clouds

  /** `v` lies between `a` and `b`, in whichever order they come. */
  predicate Between(v: real, a: real, b: real) {
    (a <= v <= b) || (b <= v <= a)
  }

  /** `GetRandomFloat`: `rand() / RAND_MAX` is some fraction in [0, 1]; which one is left open. */
  method GetRandomFloat(min: real, max: real) returns (r: real)
    ensures Between(r, min, max)
  {
    var range := max - min;
    var fraction :| 0.0 <= fraction <= 1.0;
    r := fraction * range + min;
    FractionOfRange(fraction, range);
  }

  /** A fraction in [0, 1] of a range lies between 0 and the range. */
  lemma FractionOfRange(fraction: real, range: real)
    requires 0.0 <= fraction <= 1.0
    ensures Between(fraction * range, 0.0, range)
  {
    assert (1.0 - fraction) * range == range - fraction * range;
    if range >= 0.0 {
      NonNegativeProduct(fraction, range);
      NonNegativeProduct(1.0 - fraction, range);
    } else {
      NonNegativeProduct(fraction, -range);
      NonNegativeProduct(1.0 - fraction, -range);
    }
  }

  lemma NonNegativeProduct(a: real, b: real)
    requires a >= 0.0 && b >= 0.0
    ensures a * b >= 0.0
  {
    if a > 0.0 && b > 0.0 {
      MulPositive(a, b);
    }
  }

  predicate InBox(p: Point, min: Point, max: Point) {
    Between(p.x, min.x, max.x) && Between(p.y, min.y, max.y) && Between(p.z, min.z, max.z)
  }

  method GetRandomPoint(min: Point, max: Point) returns (p: Point)
    ensures InBox(p, min, max)
  {
    var x := GetRandomFloat(min.x, max.x);
    var y := GetRandomFloat(min.y, max.y);
    var z := GetRandomFloat(min.z, max.z);
    p := Point(x, y, z);
  }

  /** `GetRandomPointCloud`: `count` points (none when `count <= 0`), each inside the box
      spanned by `corner` and `corner + size`. */
  method GetRandomPointCloud(corner: Point, size: Point, count: int) returns (cloud: seq<Point>)
    ensures |cloud| == if count > 0 then count else 0
    ensures forall i | 0 <= i < |cloud| :: InBox(cloud[i], corner, Add(corner, size))
  {
    cloud := [];
    var i := 0;
    while i < count
      invariant 0 <= i && (i <= count || i == 0)
      invariant |cloud| == i
      invariant forall k | 0 <= k < |cloud| :: InBox(cloud[k], corner, Add(corner, size))
      decreases count - i
    {
      var p := GetRandomPoint(corner, Add(corner, size));
      cloud := cloud + [p];
      i := i + 1;
    }
  }

  // ---------------------------------------------------------------------------
  // ICP loop control

  /** What one pass of the ICP loop records: the transform it starts from, the closest
      pairing of the moved cloud that the fit sees, the fitted transform, its error and the
      closest pairing that error is measured against. */
  datatype IcpPassRecord = IcpPassRecord(start: Transform, firstIndexes: seq<int>, firstPaired: seq<Point>,
                                         next: Transform, error: real, indexes: seq<int>, paired: seq<Point>)

  /** `r` is a pass of the ICP loop: `before` moved by `r.start` is paired with its closest
      points of `after`, `fit` maps those pairs and their centres of mass to `r.next`, and
      `r.error` is the mean squared error of `r.next` against the closest points under it. */
  predicate IsIcpPass(before: seq<Point>, after: seq<Point>,
                      fit: (seq<Point>, seq<Point>, Point, Point) -> Transform, r: IcpPassRecord)
    requires 0 < |before| <= |after|
  {
    var moved := TransformedCloud(before, r.start);
    && ClosestPairing(moved, after, r.firstIndexes, r.firstPaired)
    && r.next == fit(moved, r.firstPaired, CenterOfMass(moved), CenterOfMass(after))
    && ClosestPairing(TransformedCloud(before, r.next), after, r.indexes, r.paired)
    && r.error == MeanSquaredError(before, r.paired, r.next)
  }

  /** The body of the ICP loop: pair the transformed cloud with its nearest points, fit a new
      transform to the pairs and their centres of mass (the SVD step `LeastSquaresSVD`, given
      here as `fit`), pair again under the new transform and take the mean squared error of
      `before` against the re-paired points. `pass` records it. */
  method IcpPass(before: seq<Point>, after: seq<Point>, transform: Transform,
                 fit: (seq<Point>, seq<Point>, Point, Point) -> Transform)
    returns (next: Transform, error: real, ghost pass: IcpPassRecord)
    requires 0 < |before| == |after|
    ensures IsIcpPass(before, after, fit, pass)
    ensures pass.start == transform && pass.next == next && pass.error == error
    ensures error >= 0.0
  {
    var transformedCloud := TransformedCloud(before, transform);
    var closestFirst, closestSecond, pairIndexes := GetClosestPointPair(transformedCloud, after);
    var centroidBefore := CenterOfMass(transformedCloud);
    var centroidAfter := CenterOfMass(after);
    next := fit(closestFirst, closestSecond, centroidBefore, centroidAfter);
    ghost var firstIndexes, firstPaired := pairIndexes, closestSecond;
    transformedCloud := TransformedCloud(before, next);
    closestFirst, closestSecond, pairIndexes := GetClosestPointPair(transformedCloud, after);
    error := GetMeanSquaredError(before, closestSecond, next);
    pass := IcpPassRecord(transform, firstIndexes, firstPaired, next, error, pairIndexes, closestSecond);
  }

  /** Every recorded pass is a pass of the ICP loop. */
  predicate AllIcpPasses(before: seq<Point>, after: seq<Point>,
                         fit: (seq<Point>, seq<Point>, Point, Point) -> Transform, passes: seq<IcpPassRecord>)
    requires 0 < |before| <= |after|
  {
    forall k {:trigger IsIcpPass(before, after, fit, passes[k])} | 0 <= k < |passes| ::
      IsIcpPass(before, after, fit, passes[k])
  }

  /** The first pass starts from the identity and each later one from its predecessor's fit. */
  predicate IcpLinked(passes: seq<IcpPassRecord>) {
    && (|passes| > 0 ==> passes[0].start == IdentityTransform)
    && (forall k | 0 < k < |passes| :: passes[k].start == passes[k - 1].next)
  }

  /** Every pass but the last left the loop condition true: its error was above `TEST_EPS`
      and the count after it at most `maxIterations`. */
  predicate IcpContinued(maxIterations: int, passes: seq<IcpPassRecord>) {
    forall k | 0 <= k < |passes| - 1 :: passes[k].error > TestEps && k + 1 <= maxIterations
  }

  /** `passes` are the passes the ICP loop has made, in order. */
  predicate IcpChain(before: seq<Point>, after: seq<Point>, maxIterations: int,
                     fit: (seq<Point>, seq<Point>, Point, Point) -> Transform, passes: seq<IcpPassRecord>)
    requires 0 < |before| <= |after|
  {
    AllIcpPasses(before, after, fit, passes) && IcpLinked(passes) && IcpContinued(maxIterations, passes)
  }

  /** Appending a pass of the ICP loop keeps every recorded entry a pass. */
  lemma AllIcpPassesExtend(before: seq<Point>, after: seq<Point>,
                           fit: (seq<Point>, seq<Point>, Point, Point) -> Transform,
                           passes: seq<IcpPassRecord>, pass: IcpPassRecord)
    requires 0 < |before| <= |after|
    requires AllIcpPasses(before, after, fit, passes) && IsIcpPass(before, after, fit, pass)
    ensures AllIcpPasses(before, after, fit, passes + [pass])
  {
    var p := passes + [pass];
    forall k | 0 <= k < |p|
      ensures IsIcpPass(before, after, fit, p[k])
    {
      if k < |passes| {
        assert p[k] == passes[k];
      }
    }
  }

  /** Appending a pass that starts from the last fitted transform keeps the passes linked. */
  lemma IcpLinkedExtend(passes: seq<IcpPassRecord>, pass: IcpPassRecord)
    requires IcpLinked(passes)
    requires |passes| == 0 ==> pass.start == IdentityTransform
    requires |passes| > 0 ==> pass.start == passes[|passes| - 1].next
    ensures IcpLinked(passes + [pass])
  {
    var p := passes + [pass];
    assert p[0] == (if |passes| == 0 then pass else passes[0]);
    forall k | 0 < k < |p|
      ensures p[k].start == p[k - 1].next
    {
      assert p[k - 1] == passes[k - 1];
      if k < |passes| {
        assert p[k] == passes[k];
      }
    }
  }

  /** Appending a pass after one that left the loop condition true keeps the condition recorded. */
  lemma IcpContinuedExtend(maxIterations: int, passes: seq<IcpPassRecord>, pass: IcpPassRecord)
    requires IcpContinued(maxIterations, passes)
    requires |passes| > 0 ==> passes[|passes| - 1].error > TestEps && |passes| <= maxIterations
    ensures IcpContinued(maxIterations, passes + [pass])
  {
    var p := passes + [pass];
    forall k | 0 <= k < |p| - 1
      ensures p[k].error > TestEps && k + 1 <= maxIterations
    {
      assert p[k] == passes[k];
    }
  }

  /** A pass that starts where the chain ended, after a pass that left the loop condition
      true, extends the chain. */
  lemma IcpChainExtend(before: seq<Point>, after: seq<Point>, maxIterations: int,
                       fit: (seq<Point>, seq<Point>, Point, Point) -> Transform,
                       passes: seq<IcpPassRecord>, pass: IcpPassRecord)
    requires 0 < |before| <= |after|
    requires IcpChain(before, after, maxIterations, fit, passes)
    requires IsIcpPass(before, after, fit, pass)
    requires |passes| == 0 ==> pass.start == IdentityTransform
    requires |passes| > 0 ==>
      && pass.start == passes[|passes| - 1].next
      && passes[|passes| - 1].error > TestEps && |passes| <= maxIterations
    ensures IcpChain(before, after, maxIterations, fit, passes + [pass])
  {
    AllIcpPassesExtend(before, after, fit, passes, pass);
    IcpLinkedExtend(passes, pass);
    IcpContinuedExtend(maxIterations, passes, pass);
  }

  /** `GetTransformationMatrix`: the ICP `do/while`. The pass runs once unconditionally and
      repeats while the error exceeds `TEST_EPS` and the count (after its increment) is at
      most `maxIterations`. `passes` records every pass; the result is the last pass's
      transform and error. */
  method GetTransformationMatrix(before: seq<Point>, after: seq<Point>, maxIterations: int,
                                 fit: (seq<Point>, seq<Point>, Point, Point) -> Transform)
    returns (transform: Transform, iterations: int, error: real, ghost passes: seq<IcpPassRecord>)
    requires 0 < |before| == |after|
    ensures 1 <= iterations <= if maxIterations >= 0 then maxIterations + 1 else 1
    ensures |passes| == iterations && IcpChain(before, after, maxIterations, fit, passes)
    ensures transform == passes[iterations - 1].next && error == passes[iterations - 1].error
    ensures error <= TestEps || iterations > maxIterations
    ensures error >= 0.0
  {
    var transformationMatrix := IdentityTransform;
    iterations := 0;
    error := 1.0;
    passes := [];
    while true
      invariant 0 <= iterations && (iterations == 0 || iterations <= maxIterations)
      invariant |passes| == iterations
      invariant IcpChain(before, after, maxIterations, fit, passes)
      invariant iterations == 0 ==> transformationMatrix == IdentityTransform
      invariant iterations > 0 ==>
        && transformationMatrix == passes[iterations - 1].next
        && passes[iterations - 1].error > TestEps
      decreases (if maxIterations >= 0 then maxIterations + 1 else 1) - iterations
    {
      ghost var pass;
      transformationMatrix, error, pass := IcpPass(before, after, transformationMatrix, fit);
      IcpChainExtend(before, after, maxIterations, fit, passes, pass);
      passes := passes + [pass];
      iterations := iterations + 1;
      if !(error > TestEps && iterations <= maxIterations) {
        break;
      }
    }
    transform := transformationMatrix;
  }
}
