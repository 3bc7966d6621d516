/** Index permutations of point clouds (`ApplyPermutation`, `InversePermutation`,
    `GetRandomPermutationVector`, `TestPermutation` in source/common.cpp). */
module Permutations {
  import opened Geometry

  /** `p` lists every index `0 .. |p|-1` exactly once. */
  predicate IsPermutation(p: seq<int>) {
    && (forall i | 0 <= i < |p| :: 0 <= p[i] < |p|)
    && (forall i, j | 0 <= i < j < |p| :: p[i] != p[j])
  }

  /** What `ApplyPermutation` builds: `|input|` points, the i-th taken from `input[perm[i]]`.
      Only the first `|input|` entries of `perm` are read, so they must be valid indexes. */
  function Permuted(input: seq<Point>, perm: seq<int>): (r: seq<Point>)
    requires |perm| >= |input|
    requires forall i | 0 <= i < |input| :: 0 <= perm[i] < |input|
    ensures |r| == |input|
    ensures forall i | 0 <= i < |input| :: r[i] == input[perm[i]]
  {
    seq(|input|, i requires 0 <= i < |input| => input[perm[i]])
  }

  method ApplyPermutation(input: seq<Point>, perm: seq<int>) returns (out: seq<Point>)
    requires |perm| >= |input|
    requires forall i | 0 <= i < |input| :: 0 <= perm[i] < |input|
    ensures out == Permuted(input, perm)
  {
    var permuted := new Point[|input|];
    for i := 0 to |input|
      invariant forall k | 0 <= k < i :: permuted[k] == input[perm[k]]
    {
      permuted[i] := input[perm[i]];
    }
    out := permuted[..];
  }

  /** The last position below `m` at which `p` holds `k`, or -1 when there is none. */
  function LastIndex(p: seq<int>, k: int, m: nat): (r: int)
    requires m <= |p|
    ensures -1 <= r < m
    ensures r >= 0 ==> p[r] == k
    ensures forall j | r < j < m :: p[j] != k
    decreases m
  {
    if m == 0 then -1
    else if p[m - 1] == k then m - 1
    else LastIndex(p, k, m - 1)
  }

  /** What `InversePermutation` builds: entry `k` is the position of the last write
      `inv[p[i]] = i` with `p[i] == k`, or the vector's initial 0 when nothing was written. */
  function Inverse(p: seq<int>): (r: seq<int>)
    ensures |r| == |p|
  {
    seq(|p|, k => var l := LastIndex(p, k, |p|); if l < 0 then 0 else l)
  }

  method InversePermutation(p: seq<int>) returns (inv: seq<int>)
    requires forall i | 0 <= i < |p| :: 0 <= p[i] < |p|
    ensures inv == Inverse(p)
    ensures IsPermutation(p) ==> IsPermutation(inv) && forall i | 0 <= i < |p| :: inv[p[i]] == i
  {
    var inversed := new int[|p|](_ => 0);
    for i := 0 to |p|
      invariant forall k | 0 <= k < |p| ::
        inversed[k] == (var l := LastIndex(p, k, i); if l < 0 then 0 else l)
    {
      inversed[p[i]] := i;
    }
    inv := inversed[..];
    if IsPermutation(p) {
      InverseOfPermutation(p);
    }
  }

  /** The index set `{0, .., n-1}`. */
  function IndexSet(n: nat): (r: set<int>)
    ensures |r| == n
    ensures forall k :: k in r <==> 0 <= k < n
  {
    if n == 0 then {} else IndexSet(n - 1) + {n - 1}
  }

  lemma {:induction false} ImageCardinality(p: seq<int>, m: nat)
    requires m <= |p|
    requires forall i, j | 0 <= i < j < |p| :: p[i] != p[j]
    ensures |set i | 0 <= i < m :: p[i]| == m
  {
    if m > 0 {
      ImageCardinality(p, m - 1);
      var smaller := set i | 0 <= i < m - 1 :: p[i];
      assert p[m - 1] !in smaller;
      assert (set i | 0 <= i < m :: p[i]) == smaller + {p[m - 1]};
    }
  }

  lemma SubsetOfSameSize(a: set<int>, b: set<int>)
    requires a <= b && |a| == |b|
    ensures a == b
  {
    assert a * b == a;
    assert a + b == b;
    assert |b - a| == 0;
  }

  /** Pigeonhole: a permutation hits every index. */
  lemma PermutationIsSurjective(p: seq<int>, k: int)
    requires IsPermutation(p)
    requires 0 <= k < |p|
    ensures LastIndex(p, k, |p|) >= 0
  {
    var image := set i | 0 <= i < |p| :: p[i];
    var range := IndexSet(|p|);
    ImageCardinality(p, |p|);
    SubsetOfSameSize(image, range);
    assert k in range;
    var i :| 0 <= i < |p| && p[i] == k;
    assert LastIndex(p, k, |p|) >= i;
  }

  /** The inverse of a permutation is a permutation, and composing the two either way gives the identity. */
  lemma InverseOfPermutation(p: seq<int>)
    requires IsPermutation(p)
    ensures IsPermutation(Inverse(p))
    ensures forall i | 0 <= i < |p| :: Inverse(p)[p[i]] == i
    ensures forall k | 0 <= k < |p| :: p[Inverse(p)[k]] == k
  {
    var inv := Inverse(p);
    forall k | 0 <= k < |p|
      ensures 0 <= inv[k] < |p| && p[inv[k]] == k
    {
      PermutationIsSurjective(p, k);
    }
    forall i | 0 <= i < |p|
      ensures inv[p[i]] == i
    {
      var l := LastIndex(p, p[i], |p|);
      assert l == i by {
        PermutationIsSurjective(p, p[i]);
      }
    }
    forall a, b | 0 <= a < b < |p|
      ensures inv[a] != inv[b]
    {
      assert p[inv[a]] == a && p[inv[b]] == b;
    }
  }

  /** Applying a permutation and then its inverse gives back the original cloud, and vice versa. */
  lemma ApplyThenInverseRestores(cloud: seq<Point>, p: seq<int>)
    requires IsPermutation(p) && |p| == |cloud|
    ensures IsPermutation(Inverse(p))
    ensures Permuted(Permuted(cloud, p), Inverse(p)) == cloud
    ensures Permuted(Permuted(cloud, Inverse(p)), p) == cloud
  {
    InverseOfPermutation(p);
  }

  /** Inverting twice gives the permutation back. */
  lemma InverseIsInvolutive(p: seq<int>)
    requires IsPermutation(p)
    ensures Inverse(Inverse(p)) == p
  {
    InverseOfPermutation(p);
    var inv := Inverse(p);
    InverseOfPermutation(inv);
    forall i | 0 <= i < |p|
      ensures Inverse(inv)[i] == p[i]
    {
      // Both p[i] and Inverse(inv)[i] are positions where inv holds i; inv has no repeats.
      assert inv[p[i]] == i;
      assert inv[Inverse(inv)[i]] == i;
    }
  }

  /** Exchanging two entries keeps a permutation a permutation. */
  lemma SwapKeepsPermutation(s: seq<int>, i: int, j: int)
    requires IsPermutation(s)
    requires 0 <= i < |s| && 0 <= j < |s|
    ensures IsPermutation(s[i := s[j]][j := s[i]])
  {
    var t := s[i := s[j]][j := s[i]];
    forall a, b | 0 <= a < b < |t|
      ensures t[a] != t[b]
    {
      var a' := if a == i then j else if a == j then i else a;
      var b' := if b == i then j else if b == j then i else b;
      assert t[a] == s[a'] && t[b] == s[b'] && a' != b';
    }
  }

  /** `GetRandomPermutationVector`: `iota` followed by `std::shuffle`. The shuffle is a
      sequence of exchanges `a[i] <-> a[j]` with `j <= i`; the random generator's choice
      of `j` is left open. */
  method GetRandomPermutationVector(size: nat) returns (p: seq<int>)
    ensures |p| == size
    ensures IsPermutation(p)
  {
    var permutation := new int[size](k => k);
    assert IsPermutation(permutation[..]);
    var i := 1;
    while i < size
      invariant IsPermutation(permutation[..])
    {
      var j :| 0 <= j <= i;
      ghost var before := permutation[..];
      SwapKeepsPermutation(before, i, j);
      permutation[i], permutation[j] := permutation[j], permutation[i];
      assert permutation[..] == before[i := before[j]][j := before[i]];
      i := i + 1;
    }
    p := permutation[..];
  }

  /** `TestPermutation`: the recovered permutation is exactly the expected one. */
  predicate TestPermutation(expected: seq<int>, actual: seq<int>) {
    actual == expected
  }
}
