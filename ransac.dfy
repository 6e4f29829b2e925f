/** RANSAC over tracked feature pairs: draw three well-spread pairs, fit a
    similarity to them with getRTMatrix, count the pairs the fit explains,
    and once enough pairs agree keep only those, in place, in both vectors. */
module SampleConsensus {
  import opened Geometry
  import opened RigidTransform

  /** RANSAC_MAX_ITERS: rounds of the outer loop, and draws allowed per
      sample slot. */
  const MaxIters: nat := 300

  /** RANSAC_SIZE0: points per sample. */
  const SampleSize: nat := 3

  /** The random generator, seeded with the same constant on every call:
      draw(t, n) is the value of the t-th call rng.uniform(0, n). */
  type Draw = (nat, int) -> int

  /** rng.uniform(0, n) returns a value in [0, n). */
  ghost predicate DrawsInRange(draw: Draw)
  {
    forall t: nat, n: int :: n > 0 ==> 0 <= draw(t, n) < n
  }

  /** A reference to a std::vector<Point2f>, which RANSAC edits in place. */
  class PointVector {
    var elems: seq<Point2>

    constructor (s: seq<Point2>)
      ensures elems == s
    {
      elems := s;
    }

    /** vector::resize: truncate, or pad with default points (the origin). */
    method Resize(n: nat)
      modifies this
      ensures |elems| == n
      ensures n <= |old(elems)| ==> elems == old(elems)[..n]
      ensures n > |old(elems)| ==> elems[..|old(elems)|] == old(elems)
      ensures forall k :: |old(elems)| <= k < n ==> elems[k] == Point2(0.0, 0.0)
    {
      if n <= |elems| {
        elems := elems[..n];
      } else {
        elems := elems + seq(n - |elems|, _ => Point2(0.0, 0.0));
      }
    }
  }

  // ---- Sample validity.

  /** A newly drawn index u may join a sample that holds v: a different
      index whose points are not coincident, neither in A nor in B. */
  predicate Compatible(A: seq<Point2>, B: seq<Point2>, u: int, v: int)
    requires 0 <= u < |A| <= |B| && 0 <= v < |A|
  {
    u != v && !Coincident(A[u], A[v]) && !Coincident(B[u], B[v])
  }

  /** The indices are in range and pairwise compatible. */
  predicate SpreadIndices(A: seq<Point2>, B: seq<Point2>, idx: seq<int>)
    requires |A| <= |B|
  {
    (forall k :: 0 <= k < |idx| ==> 0 <= idx[k] < |A|) &&
    forall p, q :: 0 <= p < q < |idx| ==> Compatible(A, B, idx[q], idx[p])
  }

  /** The elements of s at the positions idx, in that order. */
  function Select(s: seq<Point2>, idx: seq<int>): (r: seq<Point2>)
    requires forall k :: 0 <= k < |idx| ==> 0 <= idx[k] < |s|
    ensures |r| == |idx| && forall k :: 0 <= k < |idx| ==> r[k] == s[idx[k]]
  {
    seq(|idx|, k requires 0 <= k < |idx| => s[idx[k]])
  }

  /** A sample the drawing loop accepts: three spread indices whose points
      are near-colinear neither in A nor in B. */
  predicate ValidSample(A: seq<Point2>, B: seq<Point2>, idx: seq<int>)
    requires |A| <= |B|
  {
    |idx| == SampleSize && SpreadIndices(A, B, idx) &&
    !NearColinear(A[idx[0]], A[idx[1]], A[idx[2]]) &&
    !NearColinear(B[idx[0]], B[idx[1]], B[idx[2]])
  }

  /** A draw u for the next slot of a sample that already holds `prefix` is
      kept: it is compatible with every index drawn before and, for the
      last slot, the triangle is near-colinear neither in A nor in B. */
  predicate Acceptable(A: seq<Point2>, B: seq<Point2>, prefix: seq<int>, u: int)
    requires |A| <= |B| && |prefix| < SampleSize && 0 <= u < |A|
    requires forall k :: 0 <= k < |prefix| ==> 0 <= prefix[k] < |A|
  {
    (forall p :: 0 <= p < |prefix| ==> Compatible(A, B, u, prefix[p])) &&
    (|prefix| + 1 == SampleSize ==>
       !NearColinear(A[prefix[0]], A[prefix[1]], A[u]) && !NearColinear(B[prefix[0]], B[prefix[1]], B[u]))
  }

  /** Sampling gave up on the slot after `prefix`: the MaxIters draws
      numbered tSlot, tSlot + 1, ... were all rejected. */
  ghost predicate SlotExhausted(A: seq<Point2>, B: seq<Point2>, draw: Draw, prefix: seq<int>, tSlot: nat)
    requires |A| <= |B| && DrawsInRange(draw)
  {
    0 < |A| && |prefix| < SampleSize && SpreadIndices(A, B, prefix) &&
    forall s :: tSlot <= s < tSlot + MaxIters ==> !Acceptable(A, B, prefix, draw(s, |A|))
  }

  /** The tests applied to the draw idx[i]: the j loop, which rejects an
      index equal to, or a point coincident with, one drawn before; and for
      the last slot the colinearity test in both point sets. */
  method CheckDraw(A: seq<Point2>, B: seq<Point2>, idx: array<int>, i: nat) returns (accept: bool)
    requires |A| <= |B| && idx.Length == SampleSize && i < SampleSize
    requires forall k :: 0 <= k <= i ==> 0 <= idx[k] < |A|
    ensures accept == Acceptable(A, B, idx[..i], idx[i])
  {
    var j := 0;
    while j < i
      invariant 0 <= j <= i
      invariant forall p :: 0 <= p < j ==> Compatible(A, B, idx[i], idx[p])
    {
      if idx[j] == idx[i] {
        break;
      }
      if L1Distance(A[idx[i]], A[idx[j]]) < 2.0 * FloatEpsilon {
        break;
      }
      if L1Distance(B[idx[i]], B[idx[j]]) < 2.0 * FloatEpsilon {
        break;
      }
      j := j + 1;
    }
    if j < i {
      assert idx[..i][j] == idx[j] && !Compatible(A, B, idx[i], idx[j]);
      return false;
    }
    if i + 1 == SampleSize {
      var a := [A[idx[0]], A[idx[1]], A[idx[2]]];
      var b := [B[idx[0]], B[idx[1]], B[idx[2]]];
      if NearColinear(a[0], a[1], a[2]) || NearColinear(b[0], b[1], b[2]) {
        return false;
      }
    }
    return true;
  }

  /** Drawing one index for slot i until the draw is acceptable; MaxIters
      draws per slot. `t` counts the calls to the generator. On success the
      points of the sample are copied into a and b; on failure `slot` is
      the slot given up on and `tSlot` the number of its first draw. */
  method DrawSample(A: seq<Point2>, B: seq<Point2>, draw: Draw, t0: nat)
    returns (found: bool, sample: seq<int>, a: seq<Point2>, b: seq<Point2>, t: nat,
             ghost slot: nat, ghost tSlot: nat)
    requires SampleSize <= |A| <= |B|
    requires DrawsInRange(draw)
    ensures |sample| == SampleSize
    ensures found ==> ValidSample(A, B, sample)
    ensures found ==> a == Select(A, sample) && b == Select(B, sample)
    ensures !found ==> slot < SampleSize && t == tSlot + MaxIters &&
                       SlotExhausted(A, B, draw, sample[..slot], tSlot)
    ensures t0 + (if found then SampleSize else MaxIters) <= t <= t0 + SampleSize * MaxIters
  {
    var idx := new int[SampleSize];
    a := [Point2(0.0, 0.0), Point2(0.0, 0.0), Point2(0.0, 0.0)];
    b := a;
    t := t0;
    slot, tSlot := 0, t0;
    var i := 0;
    while i < SampleSize
      invariant 0 <= i <= SampleSize
      invariant SpreadIndices(A, B, idx[..i])
      invariant t0 + i <= t <= t0 + i * MaxIters
      invariant i == SampleSize ==>
        a == [A[idx[0]], A[idx[1]], A[idx[2]]] && b == [B[idx[0]], B[idx[1]], B[idx[2]]] &&
        !NearColinear(a[0], a[1], a[2]) && !NearColinear(b[0], b[1], b[2])
    {
      ghost var prefix := idx[..i];
      tSlot := t;
      var k1 := 0;
      while k1 < MaxIters
        invariant 0 <= k1 <= MaxIters
        invariant t == tSlot + k1
        invariant idx[..i] == prefix
        invariant forall s :: tSlot <= s < t ==> !Acceptable(A, B, prefix, draw(s, |A|))
      {
        idx[i] := draw(t, |A|);
        t := t + 1;
        var accept := CheckDraw(A, B, idx, i);
        if accept {
          if i + 1 == SampleSize {
            a := [A[idx[0]], A[idx[1]], A[idx[2]]];
            b := [B[idx[0]], B[idx[1]], B[idx[2]]];
          }
          assert idx[..i + 1] == prefix + [idx[i]];
          break;
        }
        k1 := k1 + 1;
      }
      if k1 >= MaxIters {
        slot := i;
        break;
      }
      i := i + 1;
    }
    found := i == SampleSize;
    sample := idx[..];
    assert !found ==> sample[..slot] == idx[..slot];
  }

  // ---- Scoring a model.

  /** max(brect.width, brect.height) * 0.05: five percent of the larger side
      of the bounding rectangle of the tracked points. */
  function InlierThreshold(width: int, height: int): (thr: real)
    ensures thr * 20.0 >= width as real && thr * 20.0 >= height as real
    ensures thr * 20.0 == width as real || thr * 20.0 == height as real
    ensures width > 0 || height > 0 ==> thr > 0.0
  {
    (if width < height then height else width) as real * 0.05
  }

  /** How far the model sends a's point from its tracked position b, in L1. */
  function Residual(M: Mat23, a: Point2, b: Point2): real
  {
    L1Distance(MatApply(M, a), b)
  }

  predicate StrictlyIncreasing(s: seq<int>)
  {
    forall p, q :: 0 <= p < q < |s| ==> s[p] < s[q]
  }

  /** The indices among the first n pairs whose residual under M is below
      thr, in increasing order: what the scoring loop writes to good_idx. */
  function Inliers(M: Mat23, A: seq<Point2>, B: seq<Point2>, thr: real, n: nat): (r: seq<int>)
    requires n <= |A| <= |B|
    ensures |r| <= n && StrictlyIncreasing(r)
    ensures forall k :: 0 <= k < |r| ==> 0 <= r[k] < n
  {
    if n == 0 then []
    else if Residual(M, A[n - 1], B[n - 1]) < thr then Inliers(M, A, B, thr, n - 1) + [n - 1]
    else Inliers(M, A, B, thr, n - 1)
  }

  /** The list holds exactly the pairs the model explains within thr. */
  lemma {:induction false} InliersAreTheGoodPairs(M: Mat23, A: seq<Point2>, B: seq<Point2>, thr: real, n: nat)
    requires n <= |A| <= |B|
    ensures forall i :: i in Inliers(M, A, B, thr, n) <==> 0 <= i < n && Residual(M, A[i], B[i]) < thr
  {
    if n > 0 {
      InliersAreTheGoodPairs(M, A, B, thr, n - 1);
    }
  }

  /** The scoring loop: store the index of every pair the model explains
      within thr, in order, and return how many there are. */
  method CountInliers(A: seq<Point2>, B: seq<Point2>, M: Mat23, thr: real, goodIdx: array<int>)
    returns (goodCount: nat)
    requires |A| <= |B| && goodIdx.Length == |A|
    modifies goodIdx
    ensures goodCount <= goodIdx.Length
    ensures goodIdx[..goodCount] == Inliers(M, A, B, thr, |A|)
  {
    var i := 0;
    goodCount := 0;
    while i < |A|
      invariant 0 <= goodCount <= i <= |A|
      invariant goodIdx[..goodCount] == Inliers(M, A, B, thr, i)
    {
      ghost var before := goodIdx[..goodCount];
      if Residual(M, A[i], B[i]) < thr {
        goodIdx[goodCount] := i;
        goodCount := goodCount + 1;
        assert goodIdx[..goodCount] == before + [i];
      }
      i := i + 1;
    }
  }

  // ---- Keeping the inliers.

  /** A strictly increasing list of indices below n has its k-th entry
      between k and n - |s| + k. */
  lemma {:induction false} IncreasingBounds(s: seq<int>, n: nat)
    requires StrictlyIncreasing(s)
    requires forall k :: 0 <= k < |s| ==> 0 <= s[k] < n
    ensures |s| <= n
    ensures forall k :: 0 <= k < |s| ==> k <= s[k] <= n - |s| + k
  {
    if |s| > 0 {
      var last := |s| - 1;
      var pre := s[..last];
      assert forall k :: 0 <= k < |pre| ==> pre[k] == s[k];
      IncreasingBounds(pre, s[last]);
      if last > 0 {
        assert last - 1 <= pre[last - 1] < s[last];
      }
      assert last <= s[last] < n;
    }
  }

  /** A strictly increasing list of n indices below n is 0, 1, ..., n-1, so
      selecting it leaves a sequence of length n as it is. */
  lemma FullIndexListIsIdentity(s: seq<Point2>, idx: seq<int>)
    requires StrictlyIncreasing(idx) && |idx| == |s|
    requires forall k :: 0 <= k < |idx| ==> 0 <= idx[k] < |s|
    ensures forall k :: 0 <= k < |idx| ==> idx[k] == k
    ensures Select(s, idx) == s
  {
    IncreasingBounds(idx, |s|);
  }

  /** The statements after the RANSAC loop: when some pairs were rejected,
      move each kept pair (in both vectors) down to its rank among the kept
      ones, then cut both vectors to the number kept. */
  method KeepInliers(pA: PointVector, pB: PointVector, count: nat, goodIdx: array<int>, goodCount: nat)
    requires count == |pA.elems| <= |pB.elems|
    requires goodCount <= goodIdx.Length
    requires StrictlyIncreasing(goodIdx[..goodCount])
    requires forall k :: 0 <= k < goodCount ==> 0 <= goodIdx[k] < count
    modifies pA, pB
    ensures pA.elems == Select(old(pA.elems), goodIdx[..goodCount])
    ensures pB.elems == Select(old(pB.elems), goodIdx[..goodCount])
  {
    IncreasingBounds(goodIdx[..goodCount], count);
    if goodCount < count {
      var i := 0;
      while i < goodCount
        invariant 0 <= i <= goodCount
        invariant |pA.elems| == |old(pA.elems)| && |pB.elems| == |old(pB.elems)|
        invariant forall k :: 0 <= k < i ==> pA.elems[k] == old(pA.elems)[goodIdx[k]]
        invariant forall k :: i <= k < |pA.elems| ==> pA.elems[k] == old(pA.elems)[k]
        invariant forall k :: 0 <= k < i ==> pB.elems[k] == old(pB.elems)[goodIdx[k]]
        invariant forall k :: i <= k < |pB.elems| ==> pB.elems[k] == old(pB.elems)[k]
      {
        var j := goodIdx[i];
        assert i <= j;
        pA.elems := pA.elems[i := pA.elems[j]];
        pB.elems := pB.elems[i := pB.elems[j]];
        i := i + 1;
      }
    } else {
      FullIndexListIsIdentity(pA.elems, goodIdx[..goodCount]);
    }
    pA.Resize(goodCount);
    pB.Resize(goodCount);
  }

  // ---- The whole algorithm.

  /** good_count >= count * good_ratio: enough of the pairs follow the model. */
  predicate EnoughInliers(goodCount: nat, count: nat, goodRatio: real)
  {
    goodCount as real >= count as real * goodRatio
  }

  /** One round of the RANSAC loop: draw a sample (giving up the round when
      the sampler does), fit a similarity to it, score every pair, and
      accept when the share of inliers reaches goodRatio. */
  method Round(A: seq<Point2>, B: seq<Point2>, goodRatio: real, thr: real, draw: Draw, solve: Solver,
               t0: nat, goodIdx: array<int>)
    returns (accepted: bool, t: nat, goodCount: nat, found: bool,
             ghost sample: seq<int>, ghost model: Mat23, ghost slot: nat, ghost tSlot: nat)
    requires SampleSize <= |A| <= |B| && goodIdx.Length == |A|
    requires DrawsInRange(draw)
    modifies goodIdx
    ensures t0 < t
    ensures accepted <==> found && EnoughInliers(goodCount, |A|, goodRatio)
    ensures found ==> ValidSample(A, B, sample)
    ensures found ==> model == FitMatrix(Select(A, sample), Select(B, sample), solve)
    ensures found ==> goodCount <= |A| && goodIdx[..goodCount] == Inliers(model, A, B, thr, |A|)
    ensures !found ==> |sample| == SampleSize && slot < SampleSize && t == tSlot + MaxIters &&
                       SlotExhausted(A, B, draw, sample[..slot], tSlot)
  {
    model, goodCount := SimilarityMatrix(ZeroVec), 0;
    var a, b;
    found, sample, a, b, t, slot, tSlot := DrawSample(A, B, draw, t0);
    if !found {
      return false, t, goodCount, found, sample, model, slot, tSlot;
    }
    var M := new real[6];
    var fitted := GetRTMatrix(a, b, solve, M);
    assert fitted;
    goodCount := CountInliers(A, B, M[..], thr, goodIdx);
    accepted := goodCount as real >= |A| as real * goodRatio;
    model := M[..];
  }

  /** RANSAC(pA, pB, good_ratio). The bounding rectangle of pB is given by
      its width and height, the generator by draw and cv::solve by solve.
      On success the sample, the model fitted to it and the kept indices
      are reported as ghost results. */
  method Ransac(pA: PointVector, pB: PointVector, goodRatio: real, width: int, height: int,
                draw: Draw, solve: Solver)
    returns (ok: bool, ghost sample: seq<int>, ghost model: Mat23, ghost kept: seq<int>)
    requires |pA.elems| >= SampleSize ==> |pA.elems| <= |pB.elems|
    requires DrawsInRange(draw)
    modifies pA, pB
    ensures |old(pA.elems)| < SampleSize ==> !ok
    ensures !ok ==> pA.elems == old(pA.elems) && pB.elems == old(pB.elems)
    ensures ok ==> ValidSample(old(pA.elems), old(pB.elems), sample)
    ensures ok ==> model == FitMatrix(Select(old(pA.elems), sample), Select(old(pB.elems), sample), solve)
    ensures ok ==> kept == Inliers(model, old(pA.elems), old(pB.elems), InlierThreshold(width, height), |old(pA.elems)|)
    ensures ok ==> EnoughInliers(|kept|, |old(pA.elems)|, goodRatio)
    ensures ok ==> pA.elems == Select(old(pA.elems), kept) && pB.elems == Select(old(pB.elems), kept)
  {
    sample, model, kept := [], SimilarityMatrix(ZeroVec), [];
    var count := |pA.elems|;
    var goodIdx := new int[count];
    var goodCount := 0;
    if count < SampleSize {
      return false, sample, model, kept;
    }
    var A, B := pA.elems, pB.elems;
    var thr := InlierThreshold(width, height);
    var t := 0;
    var k := 0;
    while k < MaxIters
      invariant 0 <= k <= MaxIters
      modifies goodIdx
    {
      var accepted: bool, t': nat, found: bool;
      ghost var slot: nat, tSlot: nat;
      accepted, t', goodCount, found, sample, model, slot, tSlot := Round(A, B, goodRatio, thr, draw, solve, t, goodIdx);
      t := t';
      if accepted {
        kept := goodIdx[..goodCount];
        break;
      }
      k := k + 1;
    }
    if k >= MaxIters {
      return false, sample, model, kept;
    }
    assert kept == goodIdx[..goodCount] == Inliers(model, A, B, thr, count);
    KeepInliers(pA, pB, count, goodIdx, goodCount);
    assert old(pA.elems) == A && old(pB.elems) == B;
    assert |kept| == goodCount && count == |old(pA.elems)|;
    ok := true;
  }

  // ---- What a successful run means.

  /** When the model explains each of the first n pairs, all of them are
      inliers, in order. */
  lemma {:induction false} EveryPairExplained(M: Mat23, A: seq<Point2>, B: seq<Point2>, thr: real, n: nat)
    requires n <= |A| <= |B|
    requires forall i :: 0 <= i < n ==> Residual(M, A[i], B[i]) < thr
    ensures Inliers(M, A, B, thr, n) == seq(n, i => i)
  {
    if n > 0 {
      EveryPairExplained(M, A, B, thr, n - 1);
      assert seq(n, i => i) == seq(n - 1, i => i) + [n - 1];
    }
  }

  /** The survivors of a successful run: each is an original pair, at the
      position of a kept index, whose residual under the model is below the
      threshold; and every pair below the threshold survives. */
  lemma SurvivorsAreTheGoodPairs(A: seq<Point2>, B: seq<Point2>, model: Mat23, thr: real, kept: seq<int>, k: nat)
    requires |A| <= |B|
    requires kept == Inliers(model, A, B, thr, |A|)
    requires k < |kept|
    ensures 0 <= kept[k] < |A| && Select(A, kept)[k] == A[kept[k]] && Select(B, kept)[k] == B[kept[k]]
    ensures Residual(model, Select(A, kept)[k], Select(B, kept)[k]) < thr
    ensures forall i :: 0 <= i < |A| && Residual(model, A[i], B[i]) < thr ==> i in kept
  {
    InliersAreTheGoodPairs(model, A, B, thr, |A|);
    assert kept[k] in kept;
  }

  /** On exact data RANSAC recovers the motion and keeps every pair: when
      each tracked point is the image of its descriptor point under one
      similarity, any valid sample fits that similarity, and with a
      non-empty bounding rectangle of the tracked points every pair is an
      inlier. */
  lemma ExactMotionKeepsEveryPair(A: seq<Point2>, B: seq<Point2>, m: Vec4, solve: Solver,
                                  sample: seq<int>, width: int, height: int)
    requires |A| <= |B|
    requires forall i :: 0 <= i < |A| ==> B[i] == Apply(m, A[i])
    requires SolvesConsistentSystems(solve)
    requires ValidSample(A, B, sample)
    requires width > 0 || height > 0
    ensures FitMatrix(Select(A, sample), Select(B, sample), solve) == SimilarityMatrix(m)
    ensures Inliers(SimilarityMatrix(m), A, B, InlierThreshold(width, height), |A|) == seq(|A|, i => i)
    ensures Select(A, Inliers(SimilarityMatrix(m), A, B, InlierThreshold(width, height), |A|)) == A
  {
    var thr := InlierThreshold(width, height);
    var ps := Select(A, sample);
    assert Select(B, sample) == Transformed(m, ps);
    assert Compatible(A, B, sample[1], sample[0]);
    NotCoincidentIsDistinct(A[sample[1]], A[sample[0]]);
    FitRecoversSimilarity(ps, m, solve, 1, 0);
    forall i | 0 <= i < |A|
      ensures Residual(SimilarityMatrix(m), A[i], B[i]) < thr
    {
      assert MatApply(SimilarityMatrix(m), A[i]) == B[i];
    }
    EveryPairExplained(SimilarityMatrix(m), A, B, thr, |A|);
  }

  /** The colinearity test can defeat RANSAC on exact data: when all the
      descriptor points lie on one line, every spread sample is
      near-colinear in A, so no sample is valid and every round gives up. */
  lemma OneLineHasNoValidSample(A: seq<Point2>, B: seq<Point2>, idx: seq<int>)
    requires |A| <= |B|
    requires forall i, j, k :: 0 <= i < |A| && 0 <= j < |A| && 0 <= k < |A| ==> LegCross(A[i], A[j], A[k]) == 0.0
    ensures |idx| == SampleSize && SpreadIndices(A, B, idx) ==> NearColinear(A[idx[0]], A[idx[1]], A[idx[2]])
    ensures !ValidSample(A, B, idx)
  {
    if |idx| == SampleSize && SpreadIndices(A, B, idx) {
      assert Compatible(A, B, idx[1], idx[0]) && Compatible(A, B, idx[2], idx[0]);
      NotCoincidentIsDistinct(A[idx[1]], A[idx[0]]);
      NotCoincidentIsDistinct(A[idx[2]], A[idx[0]]);
      OnOneLineIsNearColinear(A[idx[0]], A[idx[1]], A[idx[2]]);
    }
  }
}
