/** The closed-form least-squares fit of a similarity transform to point
    correspondences (getRTMatrix): running sums over the pairs, the 4x4
    normal equations built from them, an abstract eigen-decomposition solve,
    and the 2x3 output matrix filled from the four solved parameters. */
module RigidTransform {
  import opened Geometry

  /** Point2f::ddot */
  function Dot(p: Point2, q: Point2): real
  {
    p.x * q.x + p.y * q.y
  }

  /** Point2f::cross */
  function Cross(p: Point2, q: Point2): real
  {
    p.x * q.y - p.y * q.x
  }

  // The running sums of the accumulation loop. Each peels off the LAST
  // element, so one more loop iteration adds exactly one term.

  /** Sum of the squared norms of the points; never negative. */
  function SumNormSq(ps: seq<Point2>): (r: real)
    ensures r >= 0.0
  {
    if |ps| == 0 then 0.0
    else
      var p := ps[|ps| - 1];
      assert Dot(p, p) >= 0.0 by { assert p.x * p.x >= 0.0 && p.y * p.y >= 0.0; }
      SumNormSq(ps[..|ps| - 1]) + Dot(p, p)
  }

  function SumX(ps: seq<Point2>): real
  {
    if |ps| == 0 then 0.0 else SumX(ps[..|ps| - 1]) + ps[|ps| - 1].x
  }

  function SumY(ps: seq<Point2>): real
  {
    if |ps| == 0 then 0.0 else SumY(ps[..|ps| - 1]) + ps[|ps| - 1].y
  }

  function SumDot(ps: seq<Point2>, qs: seq<Point2>): real
    requires |ps| == |qs|
  {
    if |ps| == 0 then 0.0
    else SumDot(ps[..|ps| - 1], qs[..|qs| - 1]) + Dot(ps[|ps| - 1], qs[|qs| - 1])
  }

  function SumCross(ps: seq<Point2>, qs: seq<Point2>): real
    requires |ps| == |qs|
  {
    if |ps| == 0 then 0.0
    else SumCross(ps[..|ps| - 1], qs[..|qs| - 1]) + Cross(ps[|ps| - 1], qs[|qs| - 1])
  }

  /** A 4x4 matrix equal to its transpose. */
  predicate Symmetric(A: Mat4)
  {
    && A[0][1] == A[1][0] && A[0][2] == A[2][0] && A[0][3] == A[3][0]
    && A[1][2] == A[2][1] && A[1][3] == A[3][1] && A[2][3] == A[3][2]
  }

  /** The normal matrix as getRTMatrix assembles it: every entry is one of
      the sum of squared norms, the sums of the coordinates of `before`, or
      the number of pairs. */
  function NormalMatrix(ps: seq<Point2>): (A: Mat4)
    ensures Symmetric(A)
    ensures A[2][2] == A[3][3] == |ps| as real
    ensures A[0][1] == 0.0 && A[2][3] == 0.0
    ensures A[0][0] == A[1][1] >= 0.0
  {
    var s2, sx, sy, n := SumNormSq(ps), SumX(ps), SumY(ps), |ps| as real;
    [[s2, 0.0, sx, sy],
     [0.0, s2, -sy, sx],
     [sx, -sy, n, 0.0],
     [sy, sx, 0.0, n]]
  }

  /** The normal matrix depends on the `before` points only through the
      sum of their squared norms, the sums of their coordinates and their
      number: reordering the points, for one, leaves it as it is. */
  lemma NormalMatrixDeterminedBySums(ps: seq<Point2>, qs: seq<Point2>)
    requires |ps| == |qs| && SumNormSq(ps) == SumNormSq(qs)
    requires SumX(ps) == SumX(qs) && SumY(ps) == SumY(qs)
    ensures NormalMatrix(ps) == NormalMatrix(qs)
  {
  }

  /** The right-hand side as getRTMatrix assembles it. */
  function NormalRhs(ps: seq<Point2>, qs: seq<Point2>): Vec4
    requires |ps| == |qs|
  {
    [SumDot(ps, qs), SumCross(ps, qs), SumX(qs), SumY(qs)]
  }

  // ---- Linear algebra on 4-vectors and 4x4 matrices.

  function VecAdd(u: Vec4, v: Vec4): Vec4
  {
    [u[0] + v[0], u[1] + v[1], u[2] + v[2], u[3] + v[3]]
  }

  function VecSub(u: Vec4, v: Vec4): Vec4
  {
    [u[0] - v[0], u[1] - v[1], u[2] - v[2], u[3] - v[3]]
  }

  function Scale(k: real, v: Vec4): Vec4
  {
    [k * v[0], k * v[1], k * v[2], k * v[3]]
  }

  function Dot4(u: Vec4, v: Vec4): real
  {
    u[0] * v[0] + u[1] * v[1] + u[2] * v[2] + u[3] * v[3]
  }

  function MatAdd(X: Mat4, Y: Mat4): Mat4
  {
    [VecAdd(X[0], Y[0]), VecAdd(X[1], Y[1]), VecAdd(X[2], Y[2]), VecAdd(X[3], Y[3])]
  }

  /** The outer product u^T u. */
  function Outer(u: Vec4): Mat4
  {
    [Scale(u[0], u), Scale(u[1], u), Scale(u[2], u), Scale(u[3], u)]
  }

  function MatVec(A: Mat4, v: Vec4): Vec4
  {
    [Dot4(A[0], v), Dot4(A[1], v), Dot4(A[2], v), Dot4(A[3], v)]
  }

  const ZeroMat: Mat4 := [ZeroVec, ZeroVec, ZeroVec, ZeroVec]

  // ---- The least-squares problem the normal equations come from.

  /** The two rows of the 2x4 design matrix J(p) of the similarity model:
      the similarity with parameters m moves p to (J(p)[0].m, J(p)[1].m). */
  function Design(p: Point2): (J: seq<Vec4>)
    ensures |J| == 2
    ensures forall m :: Apply(m, p) == Point2(Dot4(J[0], m), Dot4(J[1], m))
  {
    [[p.x, -p.y, 1.0, 0.0], [p.y, p.x, 0.0, 1.0]]
  }

  /** J(p)^T J(p), one point's share of the normal matrix. */
  function Gram(p: Point2): Mat4
  {
    var J := Design(p);
    MatAdd(Outer(J[0]), Outer(J[1]))
  }

  /** J(p)^T q, one pair's share of the right-hand side. */
  function Projection(p: Point2, q: Point2): Vec4
  {
    var J := Design(p);
    VecAdd(Scale(q.x, J[0]), Scale(q.y, J[1]))
  }

  /** Sum of J(p)^T J(p) over the points. */
  function GramSum(ps: seq<Point2>): Mat4
  {
    if |ps| == 0 then ZeroMat else MatAdd(GramSum(ps[..|ps| - 1]), Gram(ps[|ps| - 1]))
  }

  /** Sum of J(p)^T q over the pairs. */
  function ProjectionSum(ps: seq<Point2>, qs: seq<Point2>): Vec4
    requires |ps| == |qs|
  {
    if |ps| == 0 then ZeroVec
    else VecAdd(ProjectionSum(ps[..|ps| - 1], qs[..|qs| - 1]), Projection(ps[|ps| - 1], qs[|qs| - 1]))
  }

  /** The points moved by the similarity with parameters m. */
  function Transformed(m: Vec4, ps: seq<Point2>): (qs: seq<Point2>)
    ensures |qs| == |ps|
  {
    seq(|ps|, k requires 0 <= k < |ps| => Apply(m, ps[k]))
  }

  // ---- The abstract solver.

  /** cv::solve(A, B, MM, DECOMP_EIG), a function of the system. */
  type Solver = (Mat4, Vec4) -> Vec4

  /** What is assumed of the eigen-decomposition solver: given a symmetric
      system that has a solution, it returns a solution. */
  ghost predicate SolvesConsistentSystems(solve: Solver)
  {
    forall A: Mat4, m: Vec4 :: Symmetric(A) ==> MatVec(A, solve(A, MatVec(A, m))) == MatVec(A, m)
  }

  /** The 2x3 matrix getRTMatrix writes for the pairs (before[i], after[i]). */
  function FitMatrix(before: seq<Point2>, after: seq<Point2>, solve: Solver): Mat23
    requires |before| == |after|
  {
    SimilarityMatrix(solve(NormalMatrix(before), NormalRhs(before, after)))
  }

  /** The declarations and the accumulation loop of getRTMatrix: zeroed
      arrays pA (4x4) and pB (4), then one pass over the pairs adding each
      pair's terms to the first row of pA and to pB. */
  method AccumulateSums(before: seq<Point2>, after: seq<Point2>) returns (pA: array2<real>, pB: array<real>)
    requires |before| == |after|
    ensures fresh(pA) && fresh(pB)
    ensures pA.Length0 == 4 && pA.Length1 == 4 && pB.Length == 4
    ensures pA[0, 0] == SumNormSq(before) && pA[0, 2] == SumX(before) && pA[0, 3] == SumY(before)
    ensures pA[0, 1] == 0.0 && forall r, c :: 1 <= r < 4 && 0 <= c < 4 ==> pA[r, c] == 0.0
    ensures pB[0] == SumDot(before, after) && pB[1] == SumCross(before, after)
    ensures pB[2] == SumX(after) && pB[3] == SumY(after)
  {
    var n := |before|;
    pA := new real[4, 4]((r, c) => 0.0);
    pB := new real[4](r => 0.0);
    var i := 0;
    while i < n
      invariant 0 <= i <= n
      invariant pA[0, 0] == SumNormSq(before[..i])
      invariant pA[0, 2] == SumX(before[..i]) && pA[0, 3] == SumY(before[..i])
      invariant pB[0] == SumDot(before[..i], after[..i])
      invariant pB[1] == SumCross(before[..i], after[..i])
      invariant pB[2] == SumX(after[..i]) && pB[3] == SumY(after[..i])
      invariant pA[0, 1] == 0.0 && forall r, c :: 1 <= r < 4 && 0 <= c < 4 ==> pA[r, c] == 0.0
    {
      assert before[..i + 1][..i] == before[..i];
      assert after[..i + 1][..i] == after[..i];
      AddPair(pA, pB, before[i], after[i]);
      i := i + 1;
    }
    assert before[..n] == before && after[..n] == after;
  }

  /** One iteration of the accumulation loop: add one pair's terms to the
      first row of pA and to pB, leaving every other entry of pA as it is. */
  method AddPair(pA: array2<real>, pB: array<real>, p: Point2, q: Point2)
    requires pA.Length0 == 4 && pA.Length1 == 4 && pB.Length == 4
    modifies pA, pB
    ensures pA[0, 0] == old(pA[0, 0]) + Dot(p, p)
    ensures pA[0, 2] == old(pA[0, 2]) + p.x && pA[0, 3] == old(pA[0, 3]) + p.y
    ensures pA[0, 1] == old(pA[0, 1])
    ensures forall r, c :: 1 <= r < 4 && 0 <= c < 4 ==> pA[r, c] == old(pA[r, c])
    ensures pB[0] == old(pB[0]) + Dot(p, q) && pB[1] == old(pB[1]) + Cross(p, q)
    ensures pB[2] == old(pB[2]) + q.x && pB[3] == old(pB[3]) + q.y
  {
    pA[0, 0] := pA[0, 0] + Dot(p, p);
    pA[0, 2] := pA[0, 2] + p.x;
    pA[0, 3] := pA[0, 3] + p.y;
    pB[0] := pB[0] + Dot(p, q);
    pB[1] := pB[1] + Cross(p, q);
    pB[2] := pB[2] + q.x;
    pB[3] := pB[3] + q.y;
  }

  /** The statements after the accumulation loop of getRTMatrix: copy the
      accumulated first row into the rest of the symmetric normal matrix and
      put the number of pairs on the lower diagonal. */
  method CompleteSymmetric(pA: array2<real>, n: nat)
    requires pA.Length0 == 4 && pA.Length1 == 4
    requires pA[0, 1] == 0.0 && pA[1, 0] == 0.0 && pA[2, 3] == 0.0 && pA[3, 2] == 0.0
    modifies pA
    ensures pA[0, 0] == old(pA[0, 0]) && pA[0, 1] == 0.0 && pA[0, 2] == old(pA[0, 2]) && pA[0, 3] == old(pA[0, 3])
    ensures pA[1, 0] == 0.0 && pA[1, 1] == old(pA[0, 0]) && pA[1, 2] == -old(pA[0, 3]) && pA[1, 3] == old(pA[0, 2])
    ensures pA[2, 0] == old(pA[0, 2]) && pA[2, 1] == -old(pA[0, 3]) && pA[2, 2] == n as real && pA[2, 3] == 0.0
    ensures pA[3, 0] == old(pA[0, 3]) && pA[3, 1] == old(pA[0, 2]) && pA[3, 2] == 0.0 && pA[3, 3] == n as real
  {
    pA[1, 1] := pA[0, 0];
    pA[1, 2] := -pA[0, 3];
    pA[2, 1] := pA[1, 2];
    pA[2, 0] := pA[0, 2];
    pA[1, 3] := pA[2, 0];
    pA[3, 1] := pA[1, 3];
    pA[2, 2] := n as real;
    pA[3, 3] := n as real;
    pA[3, 0] := pA[0, 3];
  }

  /** The last statements of getRTMatrix: write the solved parameters into
      the 2x3 output buffer as the matrix of the similarity they describe. */
  method StoreParams(mm: Vec4, om: array<real>)
    requires om.Length == 6
    modifies om
    ensures om[..] == SimilarityMatrix(mm)
  {
    om[0] := mm[0];
    om[4] := mm[0];
    om[1] := -mm[1];
    om[3] := mm[1];
    om[2] := mm[2];
    om[5] := mm[3];
    assert om[..] == [mm[0], -mm[1], mm[2], mm[1], mm[0], mm[3]];
  }

  /** getRTMatrix: accumulate the sums into the 4x4 array pA and the
      4-array pB, complete the symmetric entries, solve, and write the
      2x3 output buffer om. The CV_Assert on the sizes is the `ok` result:
      when it fails nothing is written. The continuity assertion is not
      modelled: om is a plain buffer of six entries. */
  method GetRTMatrix(before: seq<Point2>, after: seq<Point2>, solve: Solver, om: array<real>)
    returns (ok: bool)
    requires om.Length == 6
    modifies om
    ensures ok <==> |before| > 1 && |before| == |after|
    ensures ok ==> om[..] == FitMatrix(before, after, solve)
    ensures ok ==> IsSimilarityForm(om[..])
    ensures !ok ==> om[..] == old(om[..])
  {
    var n := |before|;
    if !(n > 1 && n == |after|) {
      return false;
    }
    var pA, pB := AccumulateSums(before, after);
    ghost var A0 := NormalMatrix(before);
    ghost var B0 := NormalRhs(before, after);

    CompleteSymmetric(pA, n);

    var A: Mat4 := [[pA[0, 0], pA[0, 1], pA[0, 2], pA[0, 3]],
                    [pA[1, 0], pA[1, 1], pA[1, 2], pA[1, 3]],
                    [pA[2, 0], pA[2, 1], pA[2, 2], pA[2, 3]],
                    [pA[3, 0], pA[3, 1], pA[3, 2], pA[3, 3]]];
    var B: Vec4 := [pB[0], pB[1], pB[2], pB[3]];
    Vec4Ext(A[0], A0[0]);
    Vec4Ext(A[1], A0[1]);
    Vec4Ext(A[2], A0[2]);
    Vec4Ext(A[3], A0[3]);
    Mat4Ext(A, A0);
    Vec4Ext(B, B0);
    var mm := solve(A, B);

    StoreParams(mm, om);
    return true;
  }

  // ---- What the assembled system means.

  lemma Vec4Ext(u: Vec4, v: Vec4)
    requires u[0] == v[0] && u[1] == v[1] && u[2] == v[2] && u[3] == v[3]
    ensures u == v
  {
    forall k | 0 <= k < 4 ensures u[k] == v[k] {
      if k == 0 {} else if k == 1 {} else if k == 2 {} else {}
    }
  }

  lemma Mat4Ext(X: Mat4, Y: Mat4)
    requires X[0] == Y[0] && X[1] == Y[1] && X[2] == Y[2] && X[3] == Y[3]
    ensures X == Y
  {
    forall k | 0 <= k < 4 ensures X[k] == Y[k] {
      if k == 0 {} else if k == 1 {} else if k == 2 {} else {}
    }
  }

  /** One more point adds its share J(p)^T J(p) to the normal matrix. */
  lemma NormalMatrixStep(ps: seq<Point2>)
    requires |ps| > 0
    ensures NormalMatrix(ps) == MatAdd(NormalMatrix(ps[..|ps| - 1]), Gram(ps[|ps| - 1]))
  {
    var L, R := NormalMatrix(ps), MatAdd(NormalMatrix(ps[..|ps| - 1]), Gram(ps[|ps| - 1]));
    Vec4Ext(L[0], R[0]);
    Vec4Ext(L[1], R[1]);
    Vec4Ext(L[2], R[2]);
    Vec4Ext(L[3], R[3]);
    Mat4Ext(L, R);
  }

  /** The assembled normal matrix is the least-squares normal matrix
      sum J(p)^T J(p) of the similarity model. */
  lemma {:induction false} NormalMatrixIsGramSum(ps: seq<Point2>)
    ensures NormalMatrix(ps) == GramSum(ps)
  {
    if |ps| == 0 {
      var L := NormalMatrix(ps);
      Vec4Ext(L[0], ZeroVec);
      Vec4Ext(L[1], ZeroVec);
      Vec4Ext(L[2], ZeroVec);
      Vec4Ext(L[3], ZeroVec);
      Mat4Ext(L, ZeroMat);
    } else {
      NormalMatrixIsGramSum(ps[..|ps| - 1]);
      NormalMatrixStep(ps);
    }
  }

  /** The assembled right-hand side is sum J(p)^T q. */
  lemma {:induction false} NormalRhsIsProjectionSum(ps: seq<Point2>, qs: seq<Point2>)
    requires |ps| == |qs|
    ensures NormalRhs(ps, qs) == ProjectionSum(ps, qs)
  {
    if |ps| == 0 {
      Vec4Ext(NormalRhs(ps, qs), ZeroVec);
    } else {
      var pre, p, qpre, q := ps[..|ps| - 1], ps[|ps| - 1], qs[..|qs| - 1], qs[|qs| - 1];
      NormalRhsIsProjectionSum(pre, qpre);
      ProjectionEntries(p, q);
      Vec4Ext(NormalRhs(ps, qs), VecAdd(NormalRhs(pre, qpre), Projection(p, q)));
    }
  }

  /** J(p)^T q holds the terms one pair adds to the right-hand side. */
  lemma ProjectionEntries(p: Point2, q: Point2)
    ensures Projection(p, q) == [Dot(p, q), Cross(p, q), q.x, q.y]
  {
    var v := Projection(p, q);
    assert v[0] == Dot(p, q) by {
      assert v[0] == q.x * p.x + q.y * p.y;
    }
    assert v[1] == Cross(p, q) by {
      assert v[1] == q.x * -p.y + q.y * p.x;
    }
    Vec4Ext(v, [Dot(p, q), Cross(p, q), q.x, q.y]);
  }

  // Single algebraic steps, so that no proof depends on the solver
  // finding a rearrangement of products by itself.

  lemma MulAddRight(a: real, b: real, c: real)
    ensures (a + b) * c == a * c + b * c
  {
  }

  lemma MulAddLeft(a: real, b: real, c: real)
    ensures a * (b + c) == a * b + a * c
  {
  }

  lemma MulSubLeft(a: real, b: real, c: real)
    ensures a * (b - c) == a * b - a * c
  {
  }

  lemma MulAssoc(a: real, b: real, c: real)
    ensures (a * b) * c == a * (b * c)
  {
  }

  lemma MulDistrib4(k: real, a: real, b: real, c: real, d: real)
    ensures k * (a + b + c + d) == k * a + k * b + k * c + k * d
  {
    MulAddLeft(k, a + b + c, d);
    MulAddLeft(k, a + b, c);
    MulAddLeft(k, a, b);
  }

  lemma DotAdd(u: Vec4, w: Vec4, v: Vec4)
    ensures Dot4(VecAdd(u, w), v) == Dot4(u, v) + Dot4(w, v)
  {
    MulAddRight(u[0], w[0], v[0]);
    MulAddRight(u[1], w[1], v[1]);
    MulAddRight(u[2], w[2], v[2]);
    MulAddRight(u[3], w[3], v[3]);
  }

  lemma DotAddRight(d: Vec4, u: Vec4, w: Vec4)
    ensures Dot4(d, VecAdd(u, w)) == Dot4(d, u) + Dot4(d, w)
  {
    MulAddLeft(d[0], u[0], w[0]);
    MulAddLeft(d[1], u[1], w[1]);
    MulAddLeft(d[2], u[2], w[2]);
    MulAddLeft(d[3], u[3], w[3]);
  }

  lemma DotSub(u: Vec4, w: Vec4, v: Vec4)
    ensures Dot4(u, VecSub(w, v)) == Dot4(u, w) - Dot4(u, v)
  {
    MulSubLeft(u[0], w[0], v[0]);
    MulSubLeft(u[1], w[1], v[1]);
    MulSubLeft(u[2], w[2], v[2]);
    MulSubLeft(u[3], w[3], v[3]);
  }

  lemma DotComm(u: Vec4, v: Vec4)
    ensures Dot4(u, v) == Dot4(v, u)
  {
  }

  lemma DotScale(k: real, u: Vec4, v: Vec4)
    ensures Dot4(Scale(k, u), v) == k * Dot4(u, v)
  {
    MulAssoc(k, u[0], v[0]);
    MulAssoc(k, u[1], v[1]);
    MulAssoc(k, u[2], v[2]);
    MulAssoc(k, u[3], v[3]);
    MulDistrib4(k, u[0] * v[0], u[1] * v[1], u[2] * v[2], u[3] * v[3]);
  }

  lemma DotScaleRight(k: real, u: Vec4, v: Vec4)
    ensures Dot4(u, Scale(k, v)) == k * Dot4(u, v)
  {
    DotComm(u, Scale(k, v));
    DotScale(k, v, u);
    DotComm(v, u);
  }

  /** (u^T u) v == (u . v) u */
  lemma OuterTimes(u: Vec4, v: Vec4)
    ensures MatVec(Outer(u), v) == Scale(Dot4(u, v), u)
  {
    DotScale(u[0], u, v);
    DotScale(u[1], u, v);
    DotScale(u[2], u, v);
    DotScale(u[3], u, v);
    Vec4Ext(MatVec(Outer(u), v), Scale(Dot4(u, v), u));
  }

  lemma MatVecAdd(X: Mat4, Y: Mat4, v: Vec4)
    ensures MatVec(MatAdd(X, Y), v) == VecAdd(MatVec(X, v), MatVec(Y, v))
  {
    DotAdd(X[0], Y[0], v);
    DotAdd(X[1], Y[1], v);
    DotAdd(X[2], Y[2], v);
    DotAdd(X[3], Y[3], v);
    Vec4Ext(MatVec(MatAdd(X, Y), v), VecAdd(MatVec(X, v), MatVec(Y, v)));
  }

  lemma MatVecSub(A: Mat4, u: Vec4, v: Vec4)
    ensures MatVec(A, VecSub(u, v)) == VecSub(MatVec(A, u), MatVec(A, v))
  {
    DotSub(A[0], u, v);
    DotSub(A[1], u, v);
    DotSub(A[2], u, v);
    DotSub(A[3], u, v);
    Vec4Ext(MatVec(A, VecSub(u, v)), VecSub(MatVec(A, u), MatVec(A, v)));
  }

  /** J^T J m == J^T (J m) for one point. */
  lemma GramTimesParams(p: Point2, m: Vec4)
    ensures MatVec(Gram(p), m) == Projection(p, Apply(m, p))
  {
    var J := Design(p);
    MatVecAdd(Outer(J[0]), Outer(J[1]), m);
    OuterTimes(J[0], m);
    OuterTimes(J[1], m);
  }

  /** m . (J^T J m) == |J m|^2 for one point. */
  lemma GramQuadratic(p: Point2, d: Vec4)
    ensures Dot4(d, MatVec(Gram(p), d)) == Dot(Apply(d, p), Apply(d, p))
  {
    GramTimesParams(p, d);
    var q, J := Apply(d, p), Design(p);
    DotAddRight(d, Scale(q.x, J[0]), Scale(q.y, J[1]));
    DotScaleRight(q.x, d, J[0]);
    DotScaleRight(q.y, d, J[1]);
    DotComm(d, J[0]);
    DotComm(d, J[1]);
  }

  lemma TransformedPrefix(m: Vec4, ps: seq<Point2>)
    requires |ps| > 0
    ensures Transformed(m, ps)[..|ps| - 1] == Transformed(m, ps[..|ps| - 1])
    ensures Transformed(m, ps)[|ps| - 1] == Apply(m, ps[|ps| - 1])
  {
  }

  /** Exact correspondences solve the normal equations: when every `after`
      point is the image of its `before` point under the similarity with
      parameters m, then A m == B for the system getRTMatrix assembles. */
  lemma {:induction false} ExactPairsSolveNormalEquations(ps: seq<Point2>, m: Vec4)
    ensures MatVec(NormalMatrix(ps), m) == NormalRhs(ps, Transformed(m, ps))
  {
    GramSumSolves(ps, m);
    NormalMatrixIsGramSum(ps);
    NormalRhsIsProjectionSum(ps, Transformed(m, ps));
  }

  lemma {:induction false} GramSumSolves(ps: seq<Point2>, m: Vec4)
    ensures MatVec(GramSum(ps), m) == ProjectionSum(ps, Transformed(m, ps))
  {
    if |ps| > 0 {
      var pre, p := ps[..|ps| - 1], ps[|ps| - 1];
      GramSumSolves(pre, m);
      TransformedPrefix(m, ps);
      MatVecAdd(GramSum(pre), Gram(p), m);
      GramTimesParams(p, m);
    }
  }

  /** The quadratic form of the normal matrix is the sum of the squared
      norms of the moved points: d^T A d == sum |J(p) d|^2 >= 0. */
  lemma {:induction false} NormalMatrixQuadraticForm(ps: seq<Point2>, d: Vec4)
    ensures Dot4(d, MatVec(NormalMatrix(ps), d)) == SumNormSq(Transformed(d, ps))
  {
    NormalMatrixIsGramSum(ps);
    GramSumQuadratic(ps, d);
  }

  lemma {:induction false} GramSumQuadratic(ps: seq<Point2>, d: Vec4)
    ensures Dot4(d, MatVec(GramSum(ps), d)) == SumNormSq(Transformed(d, ps))
  {
    if |ps| > 0 {
      var pre, p := ps[..|ps| - 1], ps[|ps| - 1];
      GramSumQuadratic(pre, d);
      TransformedPrefix(d, ps);
      MatVecAdd(GramSum(pre), Gram(p), d);
      GramQuadratic(p, d);
      var u, w := MatVec(GramSum(pre), d), MatVec(Gram(p), d);
      DotAddRight(d, u, w);
      var ts := Transformed(d, ps);
      assert SumNormSq(ts) == SumNormSq(ts[..|ts| - 1]) + Dot(ts[|ts| - 1], ts[|ts| - 1]);
    }
  }

  lemma NonNegativeSumZero(a: real, b: real, c: real)
    requires a >= 0.0 && b >= 0.0 && c >= 0.0 && a + (b + c) == 0.0
    ensures a == 0.0 && b == 0.0 && c == 0.0
  {
  }

  lemma NormSqZero(p: Point2)
    requires p.x * p.x == 0.0 && p.y * p.y == 0.0
    ensures p == Point2(0.0, 0.0)
  {
    SquareZero(p.x);
    SquareZero(p.y);
  }

  /** A zero sum of squared norms has a zero last term and a zero prefix. */
  lemma SumNormSqZeroLast(qs: seq<Point2>)
    requires SumNormSq(qs) == 0.0 && |qs| > 0
    ensures SumNormSq(qs[..|qs| - 1]) == 0.0 && qs[|qs| - 1] == Point2(0.0, 0.0)
  {
    var q := qs[|qs| - 1];
    var x2, y2 := q.x * q.x, q.y * q.y;
    var rest := SumNormSq(qs[..|qs| - 1]);
    assert SumNormSq(qs) == rest + Dot(q, q);
    assert Dot(q, q) == x2 + y2;
    assert x2 >= 0.0 && y2 >= 0.0;
    NonNegativeSumZero(rest, x2, y2);
    NormSqZero(q);
  }

  /** A sum of squared norms is zero only when every point is the origin. */
  lemma {:induction false} SumNormSqZero(qs: seq<Point2>, k: nat)
    requires SumNormSq(qs) == 0.0 && k < |qs|
    ensures qs[k] == Point2(0.0, 0.0)
  {
    SumNormSqZeroLast(qs);
    if k < |qs| - 1 {
      SumNormSqZero(qs[..|qs| - 1], k);
    }
  }

  /** A similarity that sends two distinct points to the origin has all
      four parameters zero. */
  lemma ZeroAtTwoPoints(d: Vec4, p: Point2, q: Point2)
    requires Apply(d, p) == Point2(0.0, 0.0) && Apply(d, q) == Point2(0.0, 0.0)
    requires p != q
    ensures d == ZeroVec
  {
    var ex, ey := p.x - q.x, p.y - q.y;
    assert d[0] * ex - d[1] * ey == 0.0 by {
      assert d[0] * ex == d[0] * p.x - d[0] * q.x;
      assert d[1] * ey == d[1] * p.y - d[1] * q.y;
    }
    assert d[1] * ex + d[0] * ey == 0.0 by {
      assert d[1] * ex == d[1] * p.x - d[1] * q.x;
      assert d[0] * ey == d[0] * p.y - d[0] * q.y;
    }
    var s, e := d[0] * d[0] + d[1] * d[1], ex * ex + ey * ey;
    assert s * e == (d[0] * ex - d[1] * ey) * (d[0] * ex - d[1] * ey)
                  + (d[1] * ex + d[0] * ey) * (d[1] * ex + d[0] * ey);
    assert ex != 0.0 || ey != 0.0 by { assert p.x != q.x || p.y != q.y; }
    SumOfSquaresPositive(ex, ey);
    ProductZero(s, e);
    assert d[0] * d[0] >= 0.0 && d[1] * d[1] >= 0.0;
    SquareZero(d[0]);
    SquareZero(d[1]);
    Vec4Ext(d, ZeroVec);
  }

  /** With two distinct `before` points the normal equations have at most
      one solution. */
  lemma NormalEquationsUnique(ps: seq<Point2>, i: nat, j: nat, m1: Vec4, m2: Vec4)
    requires i < |ps| && j < |ps| && ps[i] != ps[j]
    requires MatVec(NormalMatrix(ps), m1) == MatVec(NormalMatrix(ps), m2)
    ensures m1 == m2
  {
    var d := VecSub(m1, m2);
    MatVecSub(NormalMatrix(ps), m1, m2);
    assert MatVec(NormalMatrix(ps), d) == ZeroVec;
    NormalMatrixQuadraticForm(ps, d);
    var ts := Transformed(d, ps);
    assert SumNormSq(ts) == 0.0;
    SumNormSqZero(ts, i);
    SumNormSqZero(ts, j);
    ZeroAtTwoPoints(d, ps[i], ps[j]);
    assert m1 == VecAdd(m2, d);
  }

  /** The fit recovers an exact similarity: if every `after` point is the
      image of its `before` point under the similarity with parameters m,
      and `before` holds two distinct points, then the matrix getRTMatrix
      writes is the matrix of that similarity. */
  lemma FitRecoversSimilarity(ps: seq<Point2>, m: Vec4, solve: Solver, i: nat, j: nat)
    requires SolvesConsistentSystems(solve)
    requires i < |ps| && j < |ps| && ps[i] != ps[j]
    ensures FitMatrix(ps, Transformed(m, ps), solve) == SimilarityMatrix(m)
  {
    var A, B := NormalMatrix(ps), NormalRhs(ps, Transformed(m, ps));
    ExactPairsSolveNormalEquations(ps, m);
    assert MatVec(A, solve(A, MatVec(A, m))) == MatVec(A, m);
    NormalEquationsUnique(ps, i, j, solve(A, B), m);
  }
}
